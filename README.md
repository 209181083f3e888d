# AndroidUSBCamera eye-tracking streamer, modelled in Dafny

The app turns a USB (UVC) camera on an Android device into an MJPEG stream. It has three parts with logic of their own.

- **The MJPEG server** (`MJPEGServer.kt`). The camera publishes every JPEG frame into a single latest-value slot. Each streaming session loops forever: it reads the slot and writes one multipart part for the frame it found, or nothing when the slot is still empty.
- **The camera manager** (`USBCameraManager.kt`). It holds one nullable camera slot. USB attach/connect/disconnect/detach/cancel callbacks, `openCamera`, `closeCamera` and `destroy` drive it. A camera is opened with a fixed 640×480 MJPEG request, and only non-null JPEG preview data is passed on to the app's frame callback.
- **The descriptor formatter** (`DeviceUtils.kt`). It produces the text dump of a USB device that the device picker shows: the device's fields, then one block per interface, with one sub-block per endpoint. Two `when` lookups name interface classes and endpoint transfer types.

Files:

- `wrappers.dfy` holds `Option`.
- `numerals.dfy` holds digit sequences in base 10 and 16, the decimal rendering of Kotlin integers, and zero-padded upper-case hex (`%0wX` of a non-negative number), with their parsers and round trips. The unsigned 32-bit reading of a negative `Int` under `%04X` (`Hex04`) is in `device_utils.dfy`.
- `text.dfy` holds bytes, the ASCII encoding of string literals, and a few generic sequence lemmas.
- `mjpeg_server.dfy`, `usb_camera_manager.dfy` and `device_utils.dfy` model the three source files.

Modelling choices:

- **The session.** The infinite session loop is a method over the sequence of values its successive slot reads returned, one per tick. Its output is specified by a function `Body` and checked against a strict part parser (`ParseParts`).
- **The camera library.** The library is not modelled. The manager records the calls it makes into `MultiCameraClient` and `CameraUVC` in a ghost log: creating and registering the client, requesting permission, creating a camera on a device, setting its control block, opening it, adding the preview callback, closing it, and unregistering and destroying the client. A replay function checks that log against the manager's own single-camera rule: at most one camera is open, and only that camera gets the preview callback or is closed. The library itself is not assumed to require this rule (`MultiCameraClient` may well hold several cameras); the rule states what the manager keeps. The manager's invariant ties the replay to the `cameraDevice` field.
- **The device-detail `StringBuilder`.** It is a class that holds the appended lines as values. Each value records which template line it came from and which expression it interpolates. Its text is the rendering of those lines, so the dump's structure (numbering, counts, SDK-dependent lines) can be stated line by line.

## Model

| member | source | states |
|---|---|---|
| MjpegServer.MjpegServer.constructor | app/src/main/kotlin/com/eyetracking/server/MJPEGServer.kt:14 | the slot is empty (null) before the first publish |
| MjpegServer.MjpegServer.PublishFrame | app/src/main/kotlin/com/eyetracking/server/MJPEGServer.kt:29-31 | afterwards the slot holds exactly the new frame, whatever it held before; nothing is queued |
| MjpegServer.MjpegServer.CurrentFrame | app/src/main/kotlin/com/eyetracking/server/MJPEGServer.kt:42 | a session's read returns the slot's value and changes nothing |
| MjpegServer.MjpegServer.RespondMjpegStream | app/src/main/kotlin/com/eyetracking/server/MJPEGServer.kt:33-53 | the response carries exactly the five headers Content-Type (multipart/x-mixed-replace, boundary `--BOUNDARY`), Connection, Cache-Control, Pragma, Expires, in that order; the body of a session is `Body(observed)`, the output of its ticks back to back |
| MjpegServer.BodyAppend | app/src/main/kotlin/com/eyetracking/server/MJPEGServer.kt:42-50 | one more tick appends only its own output: nothing when it read null, otherwise the boundary line, Content-Type line, Content-Length line with the decimal size and blank line, the frame and CRLF |
| MjpegServer.BodyIsParts | app/src/main/kotlin/com/eyetracking/server/MJPEGServer.kt:41-52 | after any number of ticks the body is the parts of the non-null observations, in observation order |
| MjpegServer.EmptySlotWritesNothing | app/src/main/kotlin/com/eyetracking/server/MJPEGServer.kt:42-51 | ticks that read a null slot write no bytes |
| MjpegServer.UnchangedSlotRepeatsFrame | app/src/main/kotlin/com/eyetracking/server/MJPEGServer.kt:42-50 | since reading does not consume the slot, a frame that stays there is written again in full on every tick |
| MjpegServer.DecimalBytes | app/src/main/kotlin/com/eyetracking/server/MJPEGServer.kt:46 | the Content-Length value is a non-empty run of ASCII digits, without a leading zero, whose value is the frame size |
| MjpegServer.LengthRoundTrip | app/src/main/kotlin/com/eyetracking/server/MJPEGServer.kt:46 | the Content-Length value reads back as the frame size |
| MjpegServer.PayloadRoundTrip | app/src/main/kotlin/com/eyetracking/server/MJPEGServer.kt:46-48 | the bytes between the blank line and the closing CRLF read back as exactly the frame |
| MjpegServer.PartRoundTrip | app/src/main/kotlin/com/eyetracking/server/MJPEGServer.kt:44-48 | a part followed by anything parses as its frame, leaving what follows untouched |
| MjpegServer.PartParseExact | app/src/main/kotlin/com/eyetracking/server/MJPEGServer.kt:44-48 | whatever the part parser accepts is exactly a part followed by the rest, so the layout is the only one accepted |
| MjpegServer.PartsRoundTrip | app/src/main/kotlin/com/eyetracking/server/MJPEGServer.kt:41-52 | back-to-back parts parse as their frames, in order |
| MjpegServer.PartsParseExact | app/src/main/kotlin/com/eyetracking/server/MJPEGServer.kt:41-52 | a byte string that parses as whole parts is exactly the parts of the frames it yields |
| MjpegServer.BodyParsesToObservedFrames | app/src/main/kotlin/com/eyetracking/server/MJPEGServer.kt:41-52 | a session body parses as exactly the non-null frames the session read, in order, and only that body parses to them |
| MjpegServer.BoundaryParameter | app/src/main/kotlin/com/eyetracking/server/MJPEGServer.kt:34 | the boundary a client reads is what follows `boundary=` in the Content-Type |
| MjpegServer.DelimiterIsNotTheDeclaredBoundary | app/src/main/kotlin/com/eyetracking/server/MJPEGServer.kt:34-44 | the declared boundary is `--BOUNDARY`; every part starts with the line `--BOUNDARY` CRLF and not with `----BOUNDARY`, the delimiter section 5.1.1 of RFC 2046 derives from that boundary |
| Numerals.DecimalRoundTrip | app/src/main/kotlin/com/eyetracking/server/MJPEGServer.kt:46 | the decimal rendering of a size is non-empty decimal digits without a leading zero and parses back to the size |
| Numerals.DecimalIntRoundTrip | app/src/main/java/com/jiangdg/demo/utils/DeviceUtils.kt:38 | the decimal rendering of a Kotlin Int, with a minus sign when negative, parses back to the Int |
| Numerals.DecimalIntInjective | app/src/main/java/com/jiangdg/demo/utils/DeviceUtils.kt:38-43 | distinct Ints print differently |
| Numerals.HexPaddedRoundTrip | app/src/main/java/com/jiangdg/demo/utils/DeviceUtils.kt:39-40 | zero-padded upper-case hex is at least the pad width, all upper-case hex digits, and parses back to the number |
| Numerals.HexPaddedWidth | app/src/main/java/com/jiangdg/demo/utils/DeviceUtils.kt:39-40 | a number below 16^width prints in exactly `width` digits |
| DeviceUtils.InterfaceClassNameTable | app/src/main/java/com/jiangdg/demo/utils/DeviceUtils.kt:76-96 | each of the 17 listed class codes maps to its fixed name; every other code `c` maps to `Unknown(` + decimal of `c` + `)` |
| DeviceUtils.EndpointTypeNameTable | app/src/main/java/com/jiangdg/demo/utils/DeviceUtils.kt:99-107 | Bulk, Control, Interrupt and Isochronous map to their names; every other value `t` maps to `Unknown(` + decimal of `t` + `)` |
| DeviceUtils.UnknownNameInjective | app/src/main/java/com/jiangdg/demo/utils/DeviceUtils.kt:95 | two unknown codes print the same fallback only if they are equal |
| DeviceUtils.ListedNamesAreNotUnknown | app/src/main/java/com/jiangdg/demo/utils/DeviceUtils.kt:76-107 | no listed name coincides with an `Unknown(..)` fallback |
| DeviceUtils.InterfaceClassNameInjective | app/src/main/java/com/jiangdg/demo/utils/DeviceUtils.kt:76-96 | the interface class name identifies the class code |
| DeviceUtils.EndpointTypeNameInjective | app/src/main/java/com/jiangdg/demo/utils/DeviceUtils.kt:99-107 | the transfer type name identifies the transfer type |
| DeviceUtils.DirectionName | app/src/main/java/com/jiangdg/demo/utils/DeviceUtils.kt:65 | the Direction value is "IN" exactly when the direction is USB_DIR_IN, otherwise "OUT" |
| DeviceUtils.Hex04RoundTrip | app/src/main/java/com/jiangdg/demo/utils/DeviceUtils.kt:39-40 | for a vendor or product ID in 0..0xFFFF the hex field is exactly four upper-case, zero-padded hex digits that parse back to the ID |
| DeviceUtils.Piece.Text | app/src/main/java/com/jiangdg/demo/utils/DeviceUtils.kt:32-69 | every appended line ends in a newline |
| DeviceUtils.StringBuilder.constructor | app/src/main/java/com/jiangdg/demo/utils/DeviceUtils.kt:30 | a new builder holds no lines |
| DeviceUtils.StringBuilder.Append | app/src/main/java/com/jiangdg/demo/utils/DeviceUtils.kt:32 | an append adds exactly one line after the existing ones |
| DeviceUtils.GetDeviceDetailString | app/src/main/java/com/jiangdg/demo/utils/DeviceUtils.kt:29-73 | the returned text is the rendering of `DetailPieces`: the header lines, the banner, then the interface blocks |
| DeviceUtils.AppendDeviceHeader | app/src/main/java/com/jiangdg/demo/utils/DeviceUtils.kt:32-47 | appends exactly the header lines of the API level after what the builder held |
| DeviceUtils.AppendProductLines | app/src/main/java/com/jiangdg/demo/utils/DeviceUtils.kt:34-36 | appends the product, manufacturer and serial lines |
| DeviceUtils.AppendIdLines | app/src/main/java/com/jiangdg/demo/utils/DeviceUtils.kt:38-43 | appends the ID, vendor, product, class, subclass and protocol lines |
| DeviceUtils.AppendInterfaces | app/src/main/java/com/jiangdg/demo/utils/DeviceUtils.kt:50-71 | the outer loop appends the blocks of all interfaces, numbered by position |
| DeviceUtils.AppendInterfaceBlock | app/src/main/java/com/jiangdg/demo/utils/DeviceUtils.kt:51-70 | one pass appends the interface's seven lines, then its endpoint blocks numbered by position |
| DeviceUtils.AppendInterfaceHead | app/src/main/java/com/jiangdg/demo/utils/DeviceUtils.kt:52-58 | appends the heading and the six lines of one interface |
| DeviceUtils.AppendEndpoint | app/src/main/java/com/jiangdg/demo/utils/DeviceUtils.kt:61-69 | appends the heading and the seven lines of one endpoint |
| DeviceUtils.RenderEndsWithNewline | app/src/main/java/com/jiangdg/demo/utils/DeviceUtils.kt:32-69 | the text of any non-empty run of lines ends in a newline |
| DeviceUtils.DeviceDetailEndsWithNewline | app/src/main/java/com/jiangdg/demo/utils/DeviceUtils.kt:29-73 | the dump is non-empty and ends in a newline |
| DeviceUtils.RenderAppend | app/src/main/java/com/jiangdg/demo/utils/DeviceUtils.kt:30-72 | the builder's text is the texts of its lines in append order |
| DeviceUtils.DeviceDetailLayout | app/src/main/java/com/jiangdg/demo/utils/DeviceUtils.kt:32-71 | the dump is the header lines, then `"\n--- Interfaces ---\n"`, then the interface blocks |
| DeviceUtils.HeaderLayout | app/src/main/java/com/jiangdg/demo/utils/DeviceUtils.kt:32-47 | the header prints exactly the lines of its API level, in source order |
| DeviceUtils.HeaderFieldsGating | app/src/main/java/com/jiangdg/demo/utils/DeviceUtils.kt:33-46 | in the header line list, product, manufacturer and serial appear iff SDK ≥ LOLLIPOP, version iff SDK ≥ M, every other header line always |
| DeviceUtils.SdkGatedLines | app/src/main/java/com/jiangdg/demo/utils/DeviceUtils.kt:33-46 | in the whole dump, Product, Manufacturer and Serial lines appear iff SDK ≥ LOLLIPOP (21), the Version line iff SDK ≥ M (23), every other device line always |
| DeviceUtils.EndpointBlocksNumbered | app/src/main/java/com/jiangdg/demo/utils/DeviceUtils.kt:60-62 | the endpoint headings of a run of endpoint blocks are numbered 0, 1, 2, … |
| DeviceUtils.EndpointsNumbered | app/src/main/java/com/jiangdg/demo/utils/DeviceUtils.kt:58-62 | an interface block has exactly endpointCount endpoint blocks, numbered 0..m−1 in order |
| DeviceUtils.EndpointCountAgrees | app/src/main/java/com/jiangdg/demo/utils/DeviceUtils.kt:58-62 | the interface's "Endpoint Count" line is the number of endpoint blocks that follow it |
| DeviceUtils.InterfaceBlocksNumbered | app/src/main/java/com/jiangdg/demo/utils/DeviceUtils.kt:50-52 | the interface headings of a run of interface blocks are numbered 0, 1, 2, … |
| DeviceUtils.InterfacesNumbered | app/src/main/java/com/jiangdg/demo/utils/DeviceUtils.kt:49-52 | the dump has exactly interfaceCount interface blocks, numbered 0..n−1 in order |
| DeviceUtils.InterfaceCountAgrees | app/src/main/java/com/jiangdg/demo/utils/DeviceUtils.kt:47-52 | the "Interface Count" line is the number of interface blocks in the dump |
| CameraManager.CameraUVC.constructor | app/src/main/kotlin/com/eyetracking/camera/USBCameraManager.kt:65 | a new camera object is bound to the device it was created for |
| CameraManager.CameraUVC.SetUsbControlBlock | app/src/main/kotlin/com/eyetracking/camera/USBCameraManager.kt:66 | the camera keeps the control block it was given |
| CameraManager.Step | app/src/main/kotlin/com/eyetracking/camera/USBCameraManager.kt:61-95 | the manager's single-camera rule, which the library is not assumed to impose: an open is allowed only with no camera open and leaves the new camera open; a close or callback registration is allowed only on the open camera, and a close leaves none open; the client calls and a camera's creation and control-block setting leave the open camera as it was |
| CameraManager.OpenCloseBalance | app/src/main/kotlin/com/eyetracking/camera/USBCameraManager.kt:61-95 | in any call log that keeps the single-camera rule, library opens minus library closes is 1 when a camera is left open and 0 otherwise |
| CameraManager.HeldCameraBalance | app/src/main/kotlin/com/eyetracking/camera/USBCameraManager.kt:19-95 | for a manager in its invariant, opens minus closes is 1 iff `cameraDevice` is non-null, else 0 |
| CameraManager.USBCameraManager.constructor | app/src/main/kotlin/com/eyetracking/camera/USBCameraManager.kt:17-20 | no camera, no frame callback, no client yet, no library calls |
| CameraManager.USBCameraManager.Initialize | app/src/main/kotlin/com/eyetracking/camera/USBCameraManager.kt:28-31 | creates the client, then registers it; the camera slot and frame callback are unchanged |
| CameraManager.USBCameraManager.OpenCamera | app/src/main/kotlin/com/eyetracking/camera/USBCameraManager.kt:61-77 | closes the held camera first if there is one, then creates a fresh camera on the device, sets its control block, opens it with the 640×480 MJPEG request and adds the preview callback, in that order; afterwards the slot holds the new camera, and the invariant (single-camera rule kept, every open uses that request) is preserved |
| CameraManager.USBCameraManager.CloseCamera | app/src/main/kotlin/com/eyetracking/camera/USBCameraManager.kt:92-95 | the slot is null afterwards; one library close if a camera was held, none otherwise, so a second call closes nothing |
| CameraManager.USBCameraManager.OnAttachDev | app/src/main/kotlin/com/eyetracking/camera/USBCameraManager.kt:34-37 | requests permission exactly when the device is non-null; nothing else changes |
| CameraManager.USBCameraManager.OnConnectDev | app/src/main/kotlin/com/eyetracking/camera/USBCameraManager.kt:39-44 | opens the camera exactly when the device is non-null, as `OpenCamera` does; a null device changes nothing |
| CameraManager.USBCameraManager.OnDisConnectDec | app/src/main/kotlin/com/eyetracking/camera/USBCameraManager.kt:46-49 | behaves as `CloseCamera`, whichever device is named |
| CameraManager.USBCameraManager.OnDetachDec | app/src/main/kotlin/com/eyetracking/camera/USBCameraManager.kt:51-54 | behaves as `CloseCamera`, whichever device is named |
| CameraManager.USBCameraManager.OnCancelDev | app/src/main/kotlin/com/eyetracking/camera/USBCameraManager.kt:56-58 | changes no state |
| CameraManager.USBCameraManager.SetFrameCallback | app/src/main/kotlin/com/eyetracking/camera/USBCameraManager.kt:88-90 | the frame callback becomes the given one; nothing else changes |
| CameraManager.USBCameraManager.OnPreviewData | app/src/main/kotlin/com/eyetracking/camera/USBCameraManager.kt:79-85 | a frame is delivered iff the format is JPEG, the data is non-null and a frame callback is set; it then carries the data, width and height unchanged, with the current time |
| CameraManager.USBCameraManager.ReleaseClient | app/src/main/kotlin/com/eyetracking/camera/USBCameraManager.kt:99-100 | on an initialized manager, appends exactly the unregister call and then the destroy call; the camera slot and frame callback are unchanged |
| CameraManager.USBCameraManager.Destroy | app/src/main/kotlin/com/eyetracking/camera/USBCameraManager.kt:97-101 | closes the camera as `CloseCamera` does, then unregisters and destroys the client in that order; the slot is null afterwards |

## Left out

- The Ktor/Netty engine is a foreign HTTP engine and is not modelled. This covers `embeddedServer`, routing, `start`, `stop(1000, 5000)`, `respondOutputStream` and `flush`. The trivial `/health` route is left out with it.
- `delay(33)` is real-time scheduling and is not modelled. One loop iteration is one abstract tick, and the endless `while (true)` session is modelled by its first `|observed|` ticks. The session really ends only by an exception (a failed `write` when the client goes away, or cancellation at `delay(33)`), which can cut it off part-way through a part; such a truncated session is not modelled, since a finite `observed` always ends between ticks.
- The `AtomicReference` slot is modelled as a plain sequential field. Atomicity between the camera thread and the stream coroutines is outside a sequential model, and so is the fact that a session need not see every frame.
- The internals of `MultiCameraClient`, `CameraUVC` and `USBMonitor` are foreign code and are not modelled. This includes the permission dialog and the asynchronous open. Only the calls the manager makes are recorded.
- `USBMonitor.UsbControlBlock` and `FrameCallback` are opaque tokens.
- Of the library enums `DataFormat` and `PreviewFormat`, only JPEG and MJPEG matter to the code. All their other constants are merged into one value (`OtherDataFormat`, `OtherPreviewFormat`).
- `Log` calls are not modelled. `System.currentTimeMillis()` is the parameter `nowMillis`, and `Build.VERSION.SDK_INT` is the parameter `sdkInt`. The Android `Context` is dropped.
- `DeviceListDialogFragment.kt` is UI (list, bottom sheet, resources) and is not part of this model.
- `MainActivity.kt` is lifecycle wiring and is not part of this model. Its only logic is forwarding each received frame to `publishFrame`.
- `UsbDevice.interfaceCount` and `getInterface(i)` are the length and elements of the `interfaces` sequence; `UsbInterface.endpointCount` and `getEndpoint(j)` are those of `endpoints`.
- CameraManager.USBCameraManager.OnAttachDev: requires `initialize` to have run. The library delivers device callbacks only through the client that `initialize` creates, so before that the `lateinit` access cannot happen from a callback.
- CameraManager.USBCameraManager.Destroy: without `initialize`, the Kotlin code throws `UninitializedPropertyAccessException` after closing the camera. The model reports this as the returned flag `uninitializedAccess` and does not model exception propagation.
- Frame sizes and counts are unbounded naturals. A JVM array length is an `Int`, but it is never negative, so no wrap-around can occur. Device, interface and endpoint numbers are Kotlin `Int`s (`int32`). `%04X` of a negative `Int` prints its unsigned 32-bit value, which the model writes out.
- DeviceUtils.GetDeviceDetailString: the `UsbDevice`, `UsbInterface` and `UsbEndpoint` accessors are taken to be total. On Android, `getSerialNumber()` throws `SecurityException` for an app that targets API level 29 or later and has no permission for the device; that exception path is not modelled, so the dump the model describes is the one produced when the accessor returns.
- An endpoint's `direction`, `endpointNumber` and `type` (the model's `endpointType`) are independent fields of `UsbEndpoint`. On Android they are derived from `address` and `attributes` (`& 0x80`, `& 0x0F`, `& 0x03`); the model does not tie them together, so it also covers values, such as an `Unknown(..)` transfer type, that a real endpoint cannot report.
- MjpegServer.MjpegServer.RespondMjpegStream: the five headers are the `response.headers.append` calls as the code makes them. Whether Ktor's response header container accepts each of them (it may refuse engine-controlled headers such as `Content-Type`) is Ktor behaviour and is not modelled.
- `publishFrame` stores the caller's `ByteArray` reference without copying it (MJPEGServer.kt:30), and `MainActivity.kt` passes the library's array straight through. A frame is an immutable value in the model, so `MjpegServer.UnchangedSlotRepeatsFrame` and the body lemmas assume the array is not written after it is published; a later write would make later ticks send the new bytes under the same `Content-Length`.
- Strings are sequences of characters, with no encoding. Byte payloads (`ByteArray`) are sequences of values 0..255.
- The code has none of the following, so the model does not add them:
  - permission-pending, opening and closing camera states;
  - an open-failure path;
  - ignoring an attach while a camera is open (`openCamera` closes the held camera first, USBCameraManager.kt:62-64);
  - clearing `currentFrame` when the camera closes.
- The stream's declared boundary is `--BOUNDARY`, so section 5.1.1 of RFC 2046 makes the delimiter line `----BOUNDARY`. The code writes `--BOUNDARY`. The model keeps the bytes as written and states the mismatch in `MjpegServer.DelimiterIsNotTheDeclaredBoundary`.
