/** The kernel side of the HID-Lock driver: status codes, device-object flag
 *  bits, GUIDs, the driver, device, file and IRP objects the driver touches,
 *  and the kernel routines it calls.
 *
 *  The routines' implementations cannot be seen. Each one is modelled by a
 *  method whose contract promises only what every implementation promises;
 *  its body picks the replies arbitrarily (any status may come back). Every
 *  call is appended, with the replies it gave and the state it observed, to
 *  the ghost `log` of the `Kernel` object, so that callers can state which
 *  calls were made, in what order, and with what arguments.
 */
module Wdm {

  /** NTSTATUS: a signed 32-bit value. */
  newtype NtStatus = x: int | -0x8000_0000 <= x < 0x8000_0000

  const STATUS_SUCCESS: NtStatus := 0

  /** An NTSTATUS as the unsigned value of the 32 bits it occupies (two's
   *  complement). */
  function StatusBits(s: NtStatus): (u: int)
    ensures 0 <= u < 0x1_0000_0000
    ensures u % 0x1_0000_0000 == (s as int) % 0x1_0000_0000
  {
    if s < 0 then s as int + 0x1_0000_0000 else s as int
  }

  /** The severity field of an NTSTATUS, its top two bits: 0 success,
   *  1 informational, 2 warning, 3 error. */
  function Severity(s: NtStatus): int
  {
    StatusBits(s) / 0x4000_0000
  }

  /** NT_SUCCESS: the status is non-negative, that is, its severity is
   *  success or informational; warnings and errors fail. */
  function NtSuccess(s: NtStatus): (r: bool)
    ensures r <==> Severity(s) <= 1
  {
    s >= 0
  }

  // Device-object flag bits, as the WDK's wdm.h defines them.
  const DO_BUFFERED_IO: bv32 := 0x0000_0004
  const DO_DIRECT_IO: bv32 := 0x0000_0010
  const DO_DEVICE_INITIALIZING: bv32 := 0x0000_0080
  const DO_POWER_PAGABLE: bv32 := 0x0000_2000

  /** The highest IRP major function code; a dispatch table has one entry more. */
  const IRP_MJ_MAXIMUM_FUNCTION: nat := 0x1b
  const FILE_DEVICE_UNKNOWN: bv32 := 0x0000_0022
  const FILE_READ_DATA: bv32 := 0x0000_0001
  const IO_NO_INCREMENT: int := 0

  datatype IoNotificationEventCategory =
    | EventCategoryReserved
    | EventCategoryHardwareProfileChange
    | EventCategoryDeviceInterfaceChange
    | EventCategoryTargetDeviceChange

  /** The eight bytes of a GUID's last field. */
  type GuidData4 = b: seq<bv8> | |b| == 8 witness [0, 0, 0, 0, 0, 0, 0, 0]

  /** A GUID: 32-bit, two 16-bit and eight 8-bit fields. */
  datatype Guid = Guid(data1: bv32, data2: bv16, data3: bv16, data4: GuidData4)

  /** IsEqualGUID: compares the two identifiers field by field. */
  function IsEqualGuid(a: Guid, b: Guid): (r: bool)
    ensures r <==> a == b
  {
    a.data1 == b.data1 && a.data2 == b.data2 && a.data3 == b.data3 && a.data4 == b.data4
  }

  /** GUID_DEVINTERFACE_USB_DEVICE, the USB device interface class of the WDK's
   *  usbiodef.h: {A5DCBF10-6530-11D2-901F-00C04FB951ED}. */
  const UsbDeviceInterfaceClass: Guid :=
    Guid(0xA5DC_BF10, 0x6530, 0x11D2, [0x90, 0x1F, 0x00, 0xC0, 0x4F, 0xB9, 0x51, 0xED])

  /** GUID_DEVINTERFACE_HID, the HID interface class of the WDK's hidclass.h:
   *  {4D1E55B2-F16F-11CF-88CB-001111000030}. */
  const HidInterfaceClass: Guid :=
    Guid(0x4D1E_55B2, 0xF16F, 0x11CF, [0x88, 0xCB, 0x00, 0x11, 0x11, 0x00, 0x00, 0x30])

  /** The address of a routine, as a dispatch table stores it or a
   *  registration names its callback. */
  datatype RoutineAddress = IopInvalidDeviceRequest | DriverRoutine(name: string)

  /** DEVICE_INTERFACE_CHANGE_NOTIFICATION: the event class, the interface
   *  class, and the symbolic link of the interface (an opaque name). */
  datatype DeviceInterfaceChangeNotification =
    DeviceInterfaceChangeNotification(Event: Guid, InterfaceClassGuid: Guid, SymbolicLinkName: string)

  class DriverObject {
    /** The dispatch table, one entry per IRP major function code. It is part
     *  of the driver object, so every device the driver creates shares it. */
    const MajorFunction: array<RoutineAddress>

    constructor ()
      ensures fresh(MajorFunction)
      ensures MajorFunction.Length == IRP_MJ_MAXIMUM_FUNCTION + 1
      ensures forall i :: 0 <= i < MajorFunction.Length ==> MajorFunction[i] == IopInvalidDeviceRequest
    {
      MajorFunction := new RoutineAddress[IRP_MJ_MAXIMUM_FUNCTION + 1](_ => IopInvalidDeviceRequest);
    }
  }

  /** DEVICE_EXTENSION of this driver's devices (Driver/main.h:28-30): the
   *  device directly beneath the filter in its stack. */
  class DeviceExtension {
    var LowerDevice: DeviceObject?

    constructor ()
      ensures LowerDevice == null
    {
      LowerDevice := null;
    }
  }

  class DeviceObject {
    var Flags: bv32
    var DeviceType: bv32
    var Characteristics: bv32
    /** The device this one is attached on top of (in the kernel, the
     *  AttachedTo field of its device-object extension); null while it is in
     *  no stack. */
    var AttachedTo: DeviceObject?
    /** The driver that created the device. */
    const DriverObject: DriverObject
    /** The device extension; null for a device of another driver, whose
     *  extension this model does not describe. */
    const DeviceExtension: DeviceExtension?

    constructor (driver: DriverObject, flags: bv32, deviceType: bv32, characteristics: bv32, extension: DeviceExtension?)
      ensures DriverObject == driver && DeviceExtension == extension
      ensures Flags == flags && DeviceType == deviceType && Characteristics == characteristics
      ensures AttachedTo == null
    {
      DriverObject := driver;
      DeviceExtension := extension;
      Flags, DeviceType, Characteristics := flags, deviceType, characteristics;
      AttachedTo := null;
    }
  }

  /** A file object; the driver only holds it long enough to release it. */
  class FileObject {
  }

  /** The parts of an IRP the driver reads and writes. */
  class Irp {
    /** AssociatedIrp.SystemBuffer; null when the request has no system buffer. */
    var SystemBuffer: array?<bv8>
    /** IoStatus.Status */
    var Status: NtStatus
    /** IoStatus.Information: the number of bytes transferred. */
    var Information: nat
  }

  /** The contents of the request's system buffer; none when it has no buffer. */
  ghost function SystemBufferContents(irp: Irp): seq<bv8>
    reads irp, irp.SystemBuffer
  {
    if irp.SystemBuffer == null then [] else irp.SystemBuffer[..]
  }

  /** One call of a kernel routine, with the replies it gave and, where it
   *  matters, the state of its arguments when it was made. */
  datatype KernelCall =
    | RegisterPlugPlayNotification(category: IoNotificationEventCategory, flags: bv32, filter: Guid,
                                   driver: DriverObject, callback: RoutineAddress, context: DriverObject,
                                   status: NtStatus)
    | GetDeviceObjectPointer(name: string, access: bv32,
                             status: NtStatus, fileObject: FileObject?, device: DeviceObject?)
    | DereferenceObject(obj: FileObject?)
    | CreateDevice(driver: DriverObject, deviceType: bv32, characteristics: bv32, exclusive: bool,
                   status: NtStatus, device: DeviceObject?, deviceFlags: bv32)
    | AttachDeviceToDeviceStack(source: DeviceObject, target: DeviceObject,
                                sourceFlags: bv32, sourceType: bv32, sourceCharacteristics: bv32,
                                sourceTable: seq<RoutineAddress>, lower: DeviceObject?)
    | CompleteRequest(irp: Irp, priorityBoost: int, irpStatus: NtStatus, irpInformation: nat,
                      irpBuffer: seq<bv8>)

  /** ObDereferenceObject dereferences the object's header, so passing it a
   *  null object faults in kernel mode (a bug check). */
  ghost predicate ReleasesNull(calls: seq<KernelCall>)
  {
    exists k :: 0 <= k < |calls| && calls[k] == DereferenceObject(null)
  }

  /** The kernel, as far as the driver can see it: the routines it calls. */
  class Kernel {
    /** Every kernel routine call made so far, in order. */
    ghost var log: seq<KernelCall>

    constructor ()
      ensures log == []
    {
      log := [];
    }

    /** IoRegisterPlugPlayNotification: any status may come back. The
     *  notification-entry handle it hands out is not modelled. */
    method IoRegisterPlugPlayNotification(category: IoNotificationEventCategory, flags: bv32, filter: Guid,
                                          driver: DriverObject, callback: RoutineAddress, context: DriverObject)
      returns (status: NtStatus)
      modifies this
      ensures log == old(log) + [RegisterPlugPlayNotification(category, flags, filter, driver, callback, context, status)]
    {
      status :| true;
      log := log + [RegisterPlugPlayNotification(category, flags, filter, driver, callback, context, status)];
    }

    /** IoGetDeviceObjectPointer: any status may come back. The file and
     *  device objects are written only on success; on failure the caller's
     *  variables keep their null. */
    method IoGetDeviceObjectPointer(name: string, access: bv32)
      returns (status: NtStatus, fileObject: FileObject?, device: DeviceObject?)
      modifies this
      ensures NtSuccess(status) ==> fileObject != null && device != null
      ensures !NtSuccess(status) ==> fileObject == null && device == null
      ensures log == old(log) + [GetDeviceObjectPointer(name, access, status, fileObject, device)]
    {
      status :| true;
      if NtSuccess(status) {
        var owner := new DriverObject();
        var flags: bv32, deviceType: bv32, characteristics: bv32 :| true;
        fileObject := new FileObject;
        device := new DeviceObject(owner, flags, deviceType, characteristics, null);
      } else {
        fileObject, device := null, null;
      }
      log := log + [GetDeviceObjectPointer(name, access, status, fileObject, device)];
    }

    /** ObDereferenceObject: releases one reference to the object. */
    method ObDereferenceObject(obj: FileObject?)
      modifies this
      ensures log == old(log) + [DereferenceObject(obj)]
    {
      log := log + [DereferenceObject(obj)];
    }

    /** IoCreateDevice for an unnamed device whose extension has this driver's
     *  layout: any status may come back. On success the device is new, belongs
     *  to the driver, has the requested type and characteristics, a zeroed
     *  extension, and DO_DEVICE_INITIALIZING among whatever flags the kernel
     *  sets; those flags are recorded with the call (0 when it fails). */
    method IoCreateDevice(driver: DriverObject, deviceType: bv32, characteristics: bv32, exclusive: bool)
      returns (status: NtStatus, device: DeviceObject?)
      modifies this
      ensures !NtSuccess(status) ==> device == null
      ensures NtSuccess(status) ==>
        && device != null && fresh(device)
        && device.DriverObject == driver
        && device.DeviceType == deviceType && device.Characteristics == characteristics
        && device.Flags & DO_DEVICE_INITIALIZING == DO_DEVICE_INITIALIZING
        && device.AttachedTo == null
        && device.DeviceExtension != null && fresh(device.DeviceExtension)
        && device.DeviceExtension.LowerDevice == null
      ensures log == old(log) + [CreateDevice(driver, deviceType, characteristics, exclusive, status, device,
                                              if device == null then 0 else device.Flags)]
    {
      status :| true;
      if NtSuccess(status) {
        var flags: bv32 :| true;
        var extension := new DeviceExtension();
        device := new DeviceObject(driver, flags | DO_DEVICE_INITIALIZING, deviceType, characteristics, extension);
      } else {
        device := null;
      }
      log := log + [CreateDevice(driver, deviceType, characteristics, exclusive, status, device,
                                 if device == null then 0 else device.Flags)];
    }

    /** IoAttachDeviceToDeviceStack: returns whatever device was on top of the
     *  target's stack, or null when the attach failed, and records it as the
     *  device the source is attached to. The call records the source device's
     *  flags, type and characteristics, and its driver's dispatch table, as
     *  the kernel saw them when attaching; nothing else of the source changes. */
    method IoAttachDeviceToDeviceStack(source: DeviceObject, target: DeviceObject) returns (lower: DeviceObject?)
      modifies this, source
      ensures source.AttachedTo == lower
      ensures source.Flags == old(source.Flags) && source.DeviceType == old(source.DeviceType)
      ensures source.Characteristics == old(source.Characteristics)
      ensures log == old(log) + [AttachDeviceToDeviceStack(source, target, source.Flags, source.DeviceType,
                                                           source.Characteristics,
                                                           source.DriverObject.MajorFunction[..], lower)]
    {
      lower :| true;
      log := log + [AttachDeviceToDeviceStack(source, target, source.Flags, source.DeviceType,
                                              source.Characteristics,
                                              source.DriverObject.MajorFunction[..], lower)];
      source.AttachedTo := lower;
    }

    /** IoCompleteRequest: the request's status block as the kernel reads it
     *  on completion is recorded. */
    method IoCompleteRequest(irp: Irp, priorityBoost: int)
      modifies this
      ensures log == old(log) + [CompleteRequest(irp, priorityBoost, irp.Status, irp.Information,
                                                 SystemBufferContents(irp))]
    {
      log := log + [CompleteRequest(irp, priorityBoost, irp.Status, irp.Information,
                                    SystemBufferContents(irp))];
    }
  }
}
