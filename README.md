# HID-Lock filter driver, modelled in Dafny

HID-Lock is a Windows kernel driver meant to neutralise human-input devices. At
start-up it subscribes to device-interface changes of the class that
`Driver/main.h:18-21` names `GUID_DEVINTERFACE_HID`. The value given there,
{A5DCBF10-6530-11D2-901F-00C04FB951ED}, is the WDK's
`GUID_DEVINTERFACE_USB_DEVICE`, the USB device interface class; the HID
interface class is {4D1E55B2-F16F-11CF-88CB-001111000030}. So the driver in fact
hears about USB devices, and the model keeps the value as written
(`HidLock.RegisteredClassIsUsbDevice`). On every interface arrival it resolves the device behind the interface, creates
an unnamed filter device, copies the target's buffering and power-pageable
capability bits, device type and characteristics onto it, attaches it above the
target, points every entry of its driver's dispatch table at `FilterDispatch`,
and clears `DO_DEVICE_INITIALIZING`. `FilterDispatch` answers every request: it
zeroes the first `IoStatus.Information` bytes of the system buffer, if there is
one, reports success with nothing transferred, and completes the request without
passing it to the device beneath.

The project has three modules:

- `Wdm` (`wdm.dfy`): the kernel side. It holds `NTSTATUS` as a signed 32-bit
  newtype, the flag bits with their WDK values, GUIDs, and the driver, device,
  extension, file and IRP objects as classes. The kernel routines the driver
  calls are methods of a `Kernel` class. Their bodies pick arbitrary replies, so
  any status may come back. Their contracts promise only what every
  implementation promises. Each call is appended to the ghost `Kernel.log`, with
  its replies and with the state the kernel saw.
- `ZeroFill` (`zero_fill.dfy`): `RtlZeroMemory` as the in-place loop over a
  byte array. It is specified by `ZeroFilled`, a function on the buffer's
  contents, and lemmas prove that function's properties.
- `HidLock` (`hid_lock.dfy`): `DriverEntry`, the arrival callback (as written,
  and corrected, see Findings) and `FilterDispatch`. The GUID constants come
  from `Driver/main.h`.

The order of the callback's set-up steps is stated through what the kernel
sees. The attach call records the filter's flags, type and characteristics and
its driver's dispatch table as they were at that moment. The contract states
that they were the copied capabilities with `DO_DEVICE_INITIALIZING` still set,
the target's type and characteristics, and the table as it was before the
callback. So the copy happened before the attach, and the table fill after it.
Clearing `DO_DEVICE_INITIALIZING` is the step method `MarkInitialized`, which
requires every entry of the table to be `FilterDispatch` already.

The result of the attach is not checked (`Driver/main.cpp:98-99`). When it
returns null, the code still fills the table, clears `DO_DEVICE_INITIALIZING`
and returns `STATUS_SUCCESS`. The filter is then ready for requests but in no
stack. The callbacks' contracts state this path.

The dispatch table is `MajorFunction` of the shared `DriverObject`, as in the
code at `Driver/main.cpp:102-103`. The comment there says the table is set "for
this filter device only". In fact every arrival rewrites the one table that all
of the driver's devices share. The model follows the code. This does not change
behaviour, because every device of this driver is a filter.

Two more behaviours of the code are worth noting, and the model keeps each:

- The registration is never undone. The registration handle is thrown away.
- The file object is released before the status is checked, even when
  resolution failed (see Findings).

## Model

| member | source | states |
|---|---|---|
| `HidLock.DriverEntry` | Driver/main.cpp:19-42 | Exactly one kernel call is made: a registration for `EventCategoryDeviceInterfaceChange` with flags 0 and `GUID_DEVINTERFACE_HID` (the USB device interface class), with `HIDDeviceCallback` as the callback and the driver object as both driver and context. The returned status is the registration's status, unchanged. |
| `HidLock.HIDDeviceCallbackAsWritten` | Driver/main.cpp:45-109 | For an event other than an interface arrival: returns `STATUS_SUCCESS`, makes no kernel call, creates no filter and leaves the dispatch table unchanged. For an arrival: first resolves the symbolic link with `FILE_READ_DATA`, then releases the file object before the status is examined. If resolution fails: returns that status, makes no further call, leaves the table unchanged, and the object it released is null. If creation fails: returns that status, nothing is attached and the table is unchanged. Otherwise: everything `FilterInstalled` states, with the resolved device as the target and the flags the creation reported, and the result is `STATUS_SUCCESS`. That includes the attach returning null: the filter then ends with `DO_DEVICE_INITIALIZING` clear and attached to nothing, and the result is still `STATUS_SUCCESS`. |
| `HidLock.HIDDeviceCallback` | Driver/main.cpp:45-109 | The same outcomes as the as-written callback, except for the release. The file object is released exactly once, before the status is examined, and only when resolution succeeded and produced one. No call ever releases null. |
| `HidLock.AttachFilter` | Driver/main.cpp:75-108 | First creates an unnamed, non-exclusive `FILE_DEVICE_UNKNOWN` device for the driver. If creation fails: returns that status, makes no other call, creates no filter and leaves the table unchanged. On success the filter is new, `FilterInstalled` holds of it, and the result is `STATUS_SUCCESS`. |
| `HidLock.InstallFilter` | Driver/main.cpp:92-108 | `FilterInstalled` holds, from the flags the device had at creation and the table before. The only kernel call is the attach. At that moment the kernel sees three things. The flags are the creation flags OR the target's `DO_POWER_PAGABLE`/`DO_BUFFERED_IO`/`DO_DIRECT_IO` bits, with `DO_DEVICE_INITIALIZING` still set. The type and characteristics are the target's. The driver's table is still the one from before. Afterwards the filter is attached to what the attach returned, null included, and the extension's `LowerDevice` is the same device. Every entry of the driver's shared table is `FilterDispatch`. The final flags are `ReadyFlags` of the creation flags and the target's flags. The filter's type and characteristics are the target's. |
| `HidLock.MarkInitialized` | Driver/main.cpp:105-106 | Clears `DO_DEVICE_INITIALIZING` and changes no other flag, field or attachment. It may only be called once every entry of the device's driver table is `FilterDispatch`. |
| `HidLock.RegisteredClassIsUsbDevice` | Driver/main.h:18-21 | The GUID the driver registers for equals the USB device interface class and differs from the HID interface class. |
| `HidLock.FillDispatchTable` | Driver/main.cpp:101-103 | Every entry from 0 to `IRP_MJ_MAXIMUM_FUNCTION` becomes `FilterDispatch`. |
| `HidLock.CopiedFlags` | Driver/main.cpp:93 | After the merge, each of the three copied capability bits is set exactly when the filter or the target had it. Every other bit is the filter's own. |
| `HidLock.ReadyFlags` | Driver/main.cpp:93-106 | The final flags have `DO_DEVICE_INITIALIZING` clear and the copied capability bits merged. Every bit outside those four is the same as at creation. |
| `HidLock.ReadyCapabilitiesAreTargets` | Driver/main.cpp:93-106 | When creation set none of the three capability bits, the ready filter's capability bits equal the target's. |
| `HidLock.FilterDispatch` | Driver/main.cpp:113-129 | With a system buffer and incoming `Information` L (which must be at most the buffer length), bytes [0, L) become zero and the rest are unchanged. Without a system buffer, no memory is written. The buffer pointer is kept. The IRP ends with `Status == STATUS_SUCCESS` and `Information == 0`, and the result is `STATUS_SUCCESS`. The only kernel call is one completion, with `IO_NO_INCREMENT`, that sees success, length 0 and the buffer already zero-filled as above (no buffer when there is none). So the request is never passed to the device beneath. |
| `Wdm.NtSuccess` | Driver/main.cpp:71 | A status counts as success exactly when its severity field, the top two of its 32 bits, is success or informational. Warnings and errors fail. |
| `Wdm.IsEqualGuid` | Driver/main.cpp:50 | The field-by-field GUID comparison holds exactly when the two GUIDs are equal. |
| `ZeroFill.RtlZeroMemory` | Driver/main.cpp:121 | The buffer's contents afterwards are `ZeroFilled` of its contents before, with the given length. The length must fit in the buffer. |
| `ZeroFill.Zeros` | Driver/main.cpp:121 | Exactly n bytes, all zero. |
| `ZeroFill.ZeroFilled` | Driver/main.cpp:120-121 | The result has the same length as the input. Each byte below n is zero. Each byte from n on is the input's byte. |
| `ZeroFill.ZeroFilledIdempotent` | Driver/main.cpp:120-121 | Zero-filling a zero-filled buffer again changes nothing. |
| `ZeroFill.ZeroFilledUnchangedIff` | Driver/main.cpp:120-121 | Zero-filling leaves a buffer unchanged if and only if its first n bytes are already zero. |
| `ZeroFill.ZeroFilledBounds` | Driver/main.cpp:120-121 | A length of 0 changes nothing. The full length gives all zeros. |
| `Wdm.Kernel.IoRegisterPlugPlayNotification` | Driver/main.cpp:31-39 | Any status may come back. The call is logged with its arguments and status. |
| `Wdm.Kernel.IoGetDeviceObjectPointer` | Driver/main.cpp:59-64 | Any status may come back. On success the file and device objects are non-null. On failure both stay null. The call is logged with its replies. |
| `Wdm.Kernel.ObDereferenceObject` | Driver/main.cpp:67 | The release is logged with the object it was given, which may be null. |
| `Wdm.Kernel.IoCreateDevice` | Driver/main.cpp:77-85 | Any status may come back. On failure there is no device. On success the device is new and belongs to the driver. It has the requested type and characteristics, `DO_DEVICE_INITIALIZING` set, no attachment, and a new extension whose `LowerDevice` is null. The call is logged with the new device's flags. |
| `Wdm.Kernel.IoAttachDeviceToDeviceStack` | Driver/main.cpp:99 | Any device or null may come back, and the source is then attached to it. No other field of the source changes. The call is logged with the source's flags, type, characteristics and driver table at that moment. |
| `Wdm.Kernel.IoCompleteRequest` | Driver/main.cpp:126 | The completion is logged with the boost and with the IRP's status, length and system-buffer contents at that moment (empty when there is no buffer). |

## Findings

| source | as written | input that shows it | evidently intended | confidence | as-written member | corrected member |
|---|---|---|---|---|---|---|
| Driver/main.cpp:59-73 | `ObDereferenceObject(fileObject)` runs before `NT_SUCCESS(status)` is checked. `IoGetDeviceObjectPointer` writes its file-object output only on success, so a failed resolution leaves `fileObject` as `nullptr`, and the driver dereferences a null object. That faults in kernel mode. | Any interface-arrival notification whose `IoGetDeviceObjectPointer` call fails, for example an interface that is gone by the time it is resolved. | Release the file object only when one was obtained, and still before the status is examined. The source's own comments ("Fear the bluescreen, play it safe") show it does not intend a null dereference. | high; not executed | `HidLock.HIDDeviceCallbackAsWritten` (its ensures proves `ReleasesNull` on every failed resolution) | `HidLock.HIDDeviceCallback` (proves `!ReleasesNull` on every path, with all other outcomes unchanged) |

## Left out

- The KdMapper landing pad and its `IoCreateDriver` trampoline (`Driver/main.cpp:7-15`, `Driver/main.h:8-15`). They are loader plumbing with no behaviour of the driver's own.
- The real semantics of the kernel routines. Each is a method whose replies are arbitrary. The kernel-side effects of an attach are not modelled: the target's `AttachedDevice`, the filter's `StackSize`, and the alignment fields.
- `IoRegisterPlugPlayNotification`'s notification-entry output (`Driver/main.cpp:28`, `:38`). The driver never uses it.
- The `DeviceName` (always `nullptr`) and `DeviceExtensionSize` arguments of `IoCreateDevice`. The model creates an unnamed device whose extension is a `DeviceExtension` object with the layout of `Driver/main.h:28-30`.
- `UNICODE_STRING`s: symbolic links and the registry path are opaque strings. Nothing is modelled of a GUID beyond its field values and equality.
- A bug check: the model records the null release as a call in the log, but execution goes on after it.
- Concurrency: callbacks arrive on arbitrary kernel threads, and requests may reach the filter while the callback still runs. IRQL and priority boosts are not modelled; the boost is only the constant passed. The model is sequential.
- `IoStatus.Information` is a `ULONG_PTR`. It is a `nat` here; no wrap-around can matter, because `FilterDispatch` requires it to fit in the buffer. The code never checks that bound, and relies on the I/O manager for it.
- `IoAttachDeviceToDeviceStack` may return null. The code does not check, and neither does the model: the filter then stays ready in no stack, and `LowerDevice` holds null. The model states that path but gives no corrected variant (deleting the filter and failing), because the code shows no intent either way. Nothing in the driver reads `LowerDevice`.
- HidLock.InstallFilter: its contract does not order the table fill before the clearing of `DO_DEVICE_INITIALIZING` (`Driver/main.cpp:102-106`). No kernel call lies between the two, so nothing the sequential model can observe tells the orders apart. The body does them through `MarkInitialized`, whose precondition demands the complete table.
- HidLock.AttachFilter: the same gap as InstallFilter, whose contract it passes on.
- HidLock.HIDDeviceCallbackAsWritten: the same gap as InstallFilter, through AttachFilter.
- HidLock.HIDDeviceCallback: the same gap as InstallFilter, through AttachFilter.
- Object lifetimes and reference counts. `ObDereferenceObject` only logs the release. The model cannot express that the file object's reference is what keeps the target device alive, so it says nothing about whether the target may go away between the release at `Driver/main.cpp:67` and its use at `Driver/main.cpp:93-99`. Both callbacks, the corrected one included, release the reference before that use.
- `FilterDispatch`'s `DeviceObject` parameter is unused, as in the source.
- Device removal and teardown, and unregistering the notification. The code implements none of them.
