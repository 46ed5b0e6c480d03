/** The HID-Lock filter driver (Driver/main.cpp): it subscribes to arrivals of
 *  device interfaces of the class named GUID_DEVINTERFACE_HID in
 *  Driver/main.h (whose value is the USB device interface class), attaches a
 *  filter device above each arriving device, and answers every request
 *  reaching the filter by zeroing its payload and completing it locally, so
 *  that the device beneath never sees it. */
module HidLock {
  import opened Wdm
  import opened ZeroFill

  /** GUID_DEVINTERFACE_HID as Driver/main.h defines it. Despite its name, its
   *  value is the WDK's GUID_DEVINTERFACE_USB_DEVICE, the USB device interface
   *  class, not the HID interface class. */
  const GUID_DEVINTERFACE_HID: Guid :=
    Guid(0xA5DC_BF10, 0x6530, 0x11D2, [0x90, 0x1F, 0x00, 0xC0, 0x4F, 0xB9, 0x51, 0xED])

  /** GUID_DEVICE_INTERFACE_ARRIVAL: the event class of an interface arrival. */
  const GUID_DEVICE_INTERFACE_ARRIVAL: Guid :=
    Guid(0xCB3A_4004, 0x46F0, 0x11D0, [0xB0, 0x8F, 0x00, 0x60, 0x97, 0x13, 0x05, 0x3F])

  /** The interface class DriverEntry registers for is the USB device class,
   *  not the HID class. */
  lemma RegisteredClassIsUsbDevice()
    ensures GUID_DEVINTERFACE_HID == UsbDeviceInterfaceClass
    ensures GUID_DEVINTERFACE_HID != HidInterfaceClass
  {
  }

  const FilterDispatchAddress: RoutineAddress := DriverRoutine("FilterDispatch")
  const HIDDeviceCallbackAddress: RoutineAddress := DriverRoutine("HIDDeviceCallback")

  /** The capability bits the filter takes over from the device beneath it. */
  const CopiedCapabilities: bv32 := DO_POWER_PAGABLE | DO_BUFFERED_IO | DO_DIRECT_IO

  /** The filter's flags once the target's capability bits are merged in: the
   *  copied bits are set where either had them, every other bit is the
   *  filter's own. */
  function CopiedFlags(own: bv32, target: bv32): (f: bv32)
    ensures f & CopiedCapabilities == (own | target) & CopiedCapabilities
    ensures f & !CopiedCapabilities == own & !CopiedCapabilities
  {
    own | (target & CopiedCapabilities)
  }

  /** The filter's flags once it is ready for requests: as after the merge,
   *  but DO_DEVICE_INITIALIZING is clear. No bit outside the copied ones and
   *  DO_DEVICE_INITIALIZING differs from the filter's own. */
  function ReadyFlags(own: bv32, target: bv32): (f: bv32)
    ensures f & DO_DEVICE_INITIALIZING == 0
    ensures f & CopiedCapabilities == (own | target) & CopiedCapabilities
    ensures f & !(CopiedCapabilities | DO_DEVICE_INITIALIZING) == own & !(CopiedCapabilities | DO_DEVICE_INITIALIZING)
  {
    CopiedFlags(own, target) & !DO_DEVICE_INITIALIZING
  }

  /** When creation set none of the copied capability bits, the ready filter
   *  has exactly the target's capability bits. */
  lemma ReadyCapabilitiesAreTargets(own: bv32, target: bv32)
    requires own & CopiedCapabilities == 0
    ensures ReadyFlags(own, target) & CopiedCapabilities == target & CopiedCapabilities
  {
  }

  /** A dispatch table that sends every major function to FilterDispatch. */
  predicate IsFilterTable(table: seq<RoutineAddress>)
  {
    |table| == IRP_MJ_MAXIMUM_FUNCTION + 1 && forall i :: 0 <= i < |table| ==> table[i] == FilterDispatchAddress
  }

  /** The state that lines 93-108 leave behind once the filter device exists.
   *  `created` is the filter's flags at creation, `table0` the driver's
   *  dispatch table before, and `calls` the kernel calls made after the
   *  creation. The attach is the only call, and it records what the kernel
   *  saw at that moment: the capabilities, type and characteristics already
   *  copied, DO_DEVICE_INITIALIZING still set, and the table not yet
   *  changed. At the end the filter sits on whatever the attach returned
   *  (possibly nothing), is ready, matches the target, and every major
   *  function of its driver goes to FilterDispatch. */
  ghost predicate FilterInstalled(driver: DriverObject, target: DeviceObject, created: bv32, table0: seq<RoutineAddress>,
                                  calls: seq<KernelCall>, filter: DeviceObject)
    reads driver.MajorFunction, target, filter, filter.DeviceExtension
  {
    && filter.DriverObject == driver
    && filter.DeviceExtension != null
    && created & DO_DEVICE_INITIALIZING != 0
    // one kernel call: the attach, made after the copy and before the table fill
    && |calls| == 1
    && calls[0].AttachDeviceToDeviceStack?
    && calls[0] == AttachDeviceToDeviceStack(filter, target, CopiedFlags(created, target.Flags),
                                             target.DeviceType, target.Characteristics, table0, calls[0].lower)
    && calls[0].sourceFlags & DO_DEVICE_INITIALIZING != 0
    && filter.AttachedTo == calls[0].lower
    && filter.DeviceExtension.LowerDevice == calls[0].lower
    // the end state: ready, matching the target, every request to FilterDispatch
    && filter.Flags == ReadyFlags(created, target.Flags)
    && filter.DeviceType == target.DeviceType
    && filter.Characteristics == target.Characteristics
    && IsFilterTable(driver.MajorFunction[..])
  }

  /** A call resolving the named interface for reading data. */
  ghost predicate ResolvesForReading(call: KernelCall, name: string)
  {
    call.GetDeviceObjectPointer? && call.name == name && call.access == FILE_READ_DATA
  }

  /** A call creating, for the driver, an unnamed, non-exclusive device of
   *  unknown type with no characteristics, whose result is `device`. */
  ghost predicate CreatesFilter(call: KernelCall, driver: DriverObject, device: DeviceObject?)
  {
    && call.CreateDevice? && call.driver == driver && call.device == device
    && call.deviceType == FILE_DEVICE_UNKNOWN && call.characteristics == 0 && !call.exclusive
  }

  /** DriverEntry: registers HIDDeviceCallback for interface changes of the
   *  class GUID_DEVINTERFACE_HID (the USB device interface class), with the
   *  driver object as context, and returns the registration's status
   *  unchanged. The registry path is not used. */
  method DriverEntry(kernel: Kernel, driver: DriverObject, registryPath: string) returns (status: NtStatus)
    modifies kernel
    ensures kernel.log == old(kernel.log) +
      [RegisterPlugPlayNotification(EventCategoryDeviceInterfaceChange, 0, GUID_DEVINTERFACE_HID,
                                    driver, HIDDeviceCallbackAddress, driver, status)]
  {
    status := kernel.IoRegisterPlugPlayNotification(EventCategoryDeviceInterfaceChange, 0, GUID_DEVINTERFACE_HID,
                                                    driver, HIDDeviceCallbackAddress, driver);
  }

  /** The loop of lines 102-103: every entry of the dispatch table, from 0 to
   *  IRP_MJ_MAXIMUM_FUNCTION, becomes FilterDispatch. */
  method FillDispatchTable(table: array<RoutineAddress>)
    requires table.Length == IRP_MJ_MAXIMUM_FUNCTION + 1
    modifies table
    ensures IsFilterTable(table[..])
  {
    var i := 0;
    while i <= IRP_MJ_MAXIMUM_FUNCTION
      invariant 0 <= i <= IRP_MJ_MAXIMUM_FUNCTION + 1
      invariant forall k :: 0 <= k < i ==> table[k] == FilterDispatchAddress
    {
      table[i] := FilterDispatchAddress;
      i := i + 1;
    }
  }

  /** Line 106: the filter is marked ready for requests by clearing
   *  DO_DEVICE_INITIALIZING, which is done only once every major function of
   *  its driver goes to FilterDispatch. Nothing else of the device changes. */
  method MarkInitialized(device: DeviceObject)
    requires IsFilterTable(device.DriverObject.MajorFunction[..])
    modifies device
    ensures device.Flags == old(device.Flags) & !DO_DEVICE_INITIALIZING
    ensures device.DeviceType == old(device.DeviceType) && device.Characteristics == old(device.Characteristics)
    ensures device.AttachedTo == old(device.AttachedTo)
  {
    device.Flags := device.Flags & !DO_DEVICE_INITIALIZING;
  }

  /** Lines 93-108, once the filter device exists: copy the target's
   *  capabilities, device type and characteristics onto the filter, attach
   *  it above the target, send every major function to FilterDispatch, and
   *  clear DO_DEVICE_INITIALIZING. The attach's result is not checked: when
   *  it returns null the filter still ends ready, in no stack. */
  method InstallFilter(kernel: Kernel, filterDevice: DeviceObject, target: DeviceObject)
    returns (ghost calls: seq<KernelCall>)
    requires filterDevice != target
    requires filterDevice.DeviceExtension != null
    requires filterDevice.Flags & DO_DEVICE_INITIALIZING != 0
    requires filterDevice.DriverObject.MajorFunction.Length == IRP_MJ_MAXIMUM_FUNCTION + 1
    modifies kernel, filterDevice, filterDevice.DeviceExtension, filterDevice.DriverObject.MajorFunction
    ensures kernel.log == old(kernel.log) + calls
    ensures FilterInstalled(filterDevice.DriverObject, target, old(filterDevice.Flags),
                            old(filterDevice.DriverObject.MajorFunction[..]), calls, filterDevice)
  {
    var table := filterDevice.DriverObject.MajorFunction;

    filterDevice.Flags := CopiedFlags(filterDevice.Flags, target.Flags);
    filterDevice.DeviceType := target.DeviceType;
    filterDevice.Characteristics := target.Characteristics;

    var ext := filterDevice.DeviceExtension;
    var lower := kernel.IoAttachDeviceToDeviceStack(filterDevice, target);
    ext.LowerDevice := lower;
    calls := [kernel.log[|kernel.log| - 1]];

    // The table belongs to the driver object, not to this filter device.
    FillDispatchTable(table);
    MarkInitialized(filterDevice);
  }

  /** Lines 76-108 of HIDDeviceCallback: create the filter device, then set it
   *  up as InstallFilter describes. A failed creation returns its status and
   *  changes nothing else. */
  method AttachFilter(kernel: Kernel, driver: DriverObject, target: DeviceObject)
    returns (status: NtStatus, ghost calls: seq<KernelCall>, ghost filter: DeviceObject?)
    requires driver.MajorFunction.Length == IRP_MJ_MAXIMUM_FUNCTION + 1
    modifies kernel, driver.MajorFunction
    ensures kernel.log == old(kernel.log) + calls
    ensures |calls| >= 1 && CreatesFilter(calls[0], driver, filter)
    ensures !NtSuccess(calls[0].status) ==>
      && status == calls[0].status && |calls| == 1 && filter == null
      && driver.MajorFunction[..] == old(driver.MajorFunction[..])
    ensures NtSuccess(calls[0].status) ==>
      && status == STATUS_SUCCESS && filter != null && fresh(filter)
      && FilterInstalled(driver, target, calls[0].deviceFlags, old(driver.MajorFunction[..]), calls[1..], filter)
  {
    var filterDevice;
    status, filterDevice := kernel.IoCreateDevice(driver, FILE_DEVICE_UNKNOWN, 0, false);
    calls, filter := [kernel.log[|kernel.log| - 1]], filterDevice;
    if !NtSuccess(status) {
      return;
    }
    ghost var rest;
    rest := InstallFilter(kernel, filterDevice, target);
    calls := calls + rest;
    status := STATUS_SUCCESS;
  }

  /** HIDDeviceCallback as written in Driver/main.cpp:45-109. Events other
   *  than an interface arrival are ignored. On an arrival the interface is
   *  resolved and the file object released at once, before the status is
   *  examined; a failed resolution returns its status. Otherwise the filter
   *  is created and attached as AttachFilter describes.
   *  A failed resolution leaves the file object null, so that path releases
   *  null (`ReleasesNull`). */
  method HIDDeviceCallbackAsWritten(kernel: Kernel, notification: DeviceInterfaceChangeNotification, context: DriverObject)
    returns (status: NtStatus, ghost calls: seq<KernelCall>, ghost filter: DeviceObject?)
    requires context.MajorFunction.Length == IRP_MJ_MAXIMUM_FUNCTION + 1
    modifies kernel, context.MajorFunction
    ensures kernel.log == old(kernel.log) + calls
    ensures notification.Event != GUID_DEVICE_INTERFACE_ARRIVAL ==>
      status == STATUS_SUCCESS && calls == [] && filter == null
      && context.MajorFunction[..] == old(context.MajorFunction[..])
    ensures notification.Event == GUID_DEVICE_INTERFACE_ARRIVAL ==>
      && |calls| >= 2
      && ResolvesForReading(calls[0], notification.SymbolicLinkName)
      && calls[1] == DereferenceObject(calls[0].fileObject)
      && (!NtSuccess(calls[0].status) ==>
            && status == calls[0].status && |calls| == 2 && filter == null
            && context.MajorFunction[..] == old(context.MajorFunction[..])
            && ReleasesNull(calls))
      && (NtSuccess(calls[0].status) ==>
            && calls[0].device != null
            && |calls| >= 3 && CreatesFilter(calls[2], context, filter)
            && (!NtSuccess(calls[2].status) ==>
                  && status == calls[2].status && |calls| == 3 && filter == null
                  && context.MajorFunction[..] == old(context.MajorFunction[..]))
            && (NtSuccess(calls[2].status) ==>
                  && status == STATUS_SUCCESS && filter != null && fresh(filter)
                  && FilterInstalled(context, calls[0].device, calls[2].deviceFlags, old(context.MajorFunction[..]),
                                     calls[3..], filter)
                  // an attach that returned null still ends in success, ready but in no stack
                  && (calls[3].lower == null ==>
                        filter.AttachedTo == null && filter.Flags & DO_DEVICE_INITIALIZING == 0)))
  {
    calls, filter := [], null;
    if !IsEqualGuid(notification.Event, GUID_DEVICE_INTERFACE_ARRIVAL) {
      return STATUS_SUCCESS, calls, filter;
    }

    var fileObject, targetDevice;
    status, fileObject, targetDevice := kernel.IoGetDeviceObjectPointer(notification.SymbolicLinkName, FILE_READ_DATA);
    kernel.ObDereferenceObject(fileObject);
    calls := kernel.log[|kernel.log| - 2..];
    if !NtSuccess(status) {
      assert calls[1] == DereferenceObject(null);
      return;
    }

    ghost var rest;
    status, rest, filter := AttachFilter(kernel, context, targetDevice);
    calls := calls + rest;
  }

  /** HIDDeviceCallback with the file object released only when resolution
   *  produced one. Events other than an interface arrival are ignored. On an
   *  arrival the interface is resolved; a file object obtained is released
   *  exactly once, before the status is examined, and no null object is ever
   *  released. A failed resolution returns its status. Otherwise the filter
   *  is created and attached as AttachFilter describes. */
  method HIDDeviceCallback(kernel: Kernel, notification: DeviceInterfaceChangeNotification, context: DriverObject)
    returns (status: NtStatus, ghost calls: seq<KernelCall>, ghost filter: DeviceObject?)
    requires context.MajorFunction.Length == IRP_MJ_MAXIMUM_FUNCTION + 1
    modifies kernel, context.MajorFunction
    ensures kernel.log == old(kernel.log) + calls
    ensures !ReleasesNull(calls)
    ensures notification.Event != GUID_DEVICE_INTERFACE_ARRIVAL ==>
      status == STATUS_SUCCESS && calls == [] && filter == null
      && context.MajorFunction[..] == old(context.MajorFunction[..])
    ensures notification.Event == GUID_DEVICE_INTERFACE_ARRIVAL ==>
      && |calls| >= 1
      && ResolvesForReading(calls[0], notification.SymbolicLinkName)
      && (!NtSuccess(calls[0].status) ==>
            && status == calls[0].status && |calls| == 1 && filter == null
            && context.MajorFunction[..] == old(context.MajorFunction[..]))
      && (NtSuccess(calls[0].status) ==>
            && calls[0].device != null
            && |calls| >= 3
            && calls[1] == DereferenceObject(calls[0].fileObject)
            && CreatesFilter(calls[2], context, filter)
            && (!NtSuccess(calls[2].status) ==>
                  && status == calls[2].status && |calls| == 3 && filter == null
                  && context.MajorFunction[..] == old(context.MajorFunction[..]))
            && (NtSuccess(calls[2].status) ==>
                  && status == STATUS_SUCCESS && filter != null && fresh(filter)
                  && FilterInstalled(context, calls[0].device, calls[2].deviceFlags, old(context.MajorFunction[..]),
                                     calls[3..], filter)
                  // an attach that returned null still ends in success, ready but in no stack
                  && (calls[3].lower == null ==>
                        filter.AttachedTo == null && filter.Flags & DO_DEVICE_INITIALIZING == 0)))
  {
    calls, filter := [], null;
    if !IsEqualGuid(notification.Event, GUID_DEVICE_INTERFACE_ARRIVAL) {
      return STATUS_SUCCESS, calls, filter;
    }

    var fileObject, targetDevice;
    status, fileObject, targetDevice := kernel.IoGetDeviceObjectPointer(notification.SymbolicLinkName, FILE_READ_DATA);
    calls := [kernel.log[|kernel.log| - 1]];
    if fileObject != null {
      kernel.ObDereferenceObject(fileObject);
      calls := calls + [kernel.log[|kernel.log| - 1]];
    }
    if !NtSuccess(status) {
      return;
    }

    ghost var rest;
    status, rest, filter := AttachFilter(kernel, context, targetDevice);
    calls := calls + rest;
    assert calls[..2] + calls[2..] == calls;
  }

  /** FilterDispatch: zeroes the first IoStatus.Information bytes of the
   *  system buffer, if there is one, and leaves the rest of it as it was;
   *  then completes the request, once and without a priority boost, as a
   *  success that transferred nothing. The request is never passed to the
   *  device beneath. The reported length must fit in the buffer. */
  method FilterDispatch(kernel: Kernel, deviceObject: DeviceObject, irp: Irp) returns (status: NtStatus)
    requires irp.SystemBuffer != null ==> irp.Information <= irp.SystemBuffer.Length
    modifies kernel, irp, irp.SystemBuffer
    ensures irp.SystemBuffer == old(irp.SystemBuffer)
    ensures irp.SystemBuffer != null ==>
      irp.SystemBuffer[..] == ZeroFilled(old(irp.SystemBuffer[..]), old(irp.Information))
    ensures status == STATUS_SUCCESS && irp.Status == STATUS_SUCCESS && irp.Information == 0
    // the completion hands back the request with its payload already zeroed
    ensures kernel.log == old(kernel.log) +
      [CompleteRequest(irp, IO_NO_INCREMENT, STATUS_SUCCESS, 0,
                       if old(irp.SystemBuffer) == null then []
                       else ZeroFilled(old(irp.SystemBuffer[..]), old(irp.Information)))]
  {
    if irp.SystemBuffer != null {
      RtlZeroMemory(irp.SystemBuffer, irp.Information);
    }
    irp.Status := STATUS_SUCCESS;
    irp.Information := 0;
    kernel.IoCompleteRequest(irp, IO_NO_INCREMENT);
    return STATUS_SUCCESS;
  }
}
