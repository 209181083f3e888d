/**
 * The camera side of the app: one nullable camera slot driven by the USB device callbacks,
 * `openCamera`, `closeCamera` and `destroy`. The UVC library itself is not modelled; the
 * calls the manager makes into it are recorded in a ghost log, and the log is checked
 * against the manager's own single-camera rule (the library is not assumed to impose it).
 */
module CameraManager {
  import opened Wrappers
  import opened Text
  import DeviceUtils

  type UsbDevice = DeviceUtils.UsbDevice

  const PREVIEW_WIDTH: int := 640
  const PREVIEW_HEIGHT: int := 480

  /** The library's `CameraRequest.PreviewFormat`; only MJPEG is ever requested. */
  datatype PreviewFormat = FORMAT_MJPEG | OtherPreviewFormat

  datatype CameraRequest = CameraRequest(previewWidth: int, previewHeight: int, previewFormat: PreviewFormat)

  /** The request every `openCamera` builds. */
  const DEFAULT_REQUEST: CameraRequest := CameraRequest(PREVIEW_WIDTH, PREVIEW_HEIGHT, FORMAT_MJPEG)

  /** `USBMonitor.UsbControlBlock`, an opaque token of the USB permission. */
  datatype UsbControlBlock = UsbControlBlock(token: nat)

  /** The library's `IPreviewDataCallBack.DataFormat`: JPEG, or one of its other constants. */
  datatype DataFormat = JPEG | OtherDataFormat

  /** The app's `FrameCallback` object, identified by a token. */
  datatype FrameCallback = FrameCallback(token: nat)

  /** One call of `FrameCallback.onFrameReceived`. */
  datatype FrameDelivery = FrameDelivery(
    callback: FrameCallback, jpegData: seq<byte>, width: int, height: int, timestamp: int)

  /** A `CameraUVC` object: created per open, so each open gets a camera of its own. */
  class CameraUVC {
    const device: UsbDevice
    var ctrlBlock: Option<UsbControlBlock>

    constructor (device: UsbDevice)
      ensures this.device == device && ctrlBlock == None
    {
      this.device := device;
      ctrlBlock := None;
    }

    method SetUsbControlBlock(ctrlBlock: Option<UsbControlBlock>)
      modifies this
      ensures this.ctrlBlock == ctrlBlock
    {
      this.ctrlBlock := ctrlBlock;
    }
  }

  /** A call the manager makes into `MultiCameraClient` or `CameraUVC`. */
  datatype LibraryCall =
    | ClientCreate
    | ClientRegister
    | ClientRequestPermission(device: UsbDevice)
    | CameraCreate(camera: CameraUVC, device: UsbDevice)
    | CameraSetUsbControlBlock(camera: CameraUVC, ctrlBlock: Option<UsbControlBlock>)
    | CameraOpen(camera: CameraUVC, request: CameraRequest)
    | CameraAddPreviewDataCallBack(camera: CameraUVC)
    | CameraClose(camera: CameraUVC)
    | ClientUnRegister
    | ClientDestroy

  // ---- the single-camera rule ----

  /**
   * The camera left open after `call`, when the manager's single-camera rule allows the call
   * with `held` open: a camera is opened only when none is open, and only the open camera gets
   * a preview callback or is closed. This is the rule the manager keeps; the library is not
   * assumed to refuse calls that break it.
   */
  function Step(held: Option<CameraUVC>, call: LibraryCall): (next: Option<Option<CameraUVC>>)
    ensures call.CameraOpen? ==> (next.Some? <==> held.None?)
    ensures call.CameraClose? ==> (next.Some? <==> held == Some(call.camera))
    ensures next.Some? && call.CameraOpen? ==> next.value == Some(call.camera)
    ensures next.Some? && call.CameraClose? ==> next.value.None?
    ensures next.Some? && !call.CameraOpen? && !call.CameraClose? ==> next.value == held
  {
    match call
    case CameraOpen(camera, _) => if held.None? then Some(Some(camera)) else None
    case CameraAddPreviewDataCallBack(camera) => if held == Some(camera) then Some(held) else None
    case CameraClose(camera) => if held == Some(camera) then Some(None) else None
    case _ => Some(held)
  }

  /** The camera open after the whole log, or None when the log breaks the single-camera rule. */
  function Replay(log: seq<LibraryCall>): Option<Option<CameraUVC>> {
    if log == [] then Some(None)
    else
      match Replay(log[..|log| - 1])
      case None => None
      case Some(held) => Step(held, log[|log| - 1])
  }

  function Opens(log: seq<LibraryCall>): nat {
    if log == [] then 0 else Opens(log[..|log| - 1]) + (if log[|log| - 1].CameraOpen? then 1 else 0)
  }

  function Closes(log: seq<LibraryCall>): nat {
    if log == [] then 0 else Closes(log[..|log| - 1]) + (if log[|log| - 1].CameraClose? then 1 else 0)
  }

  predicate OpensUse(log: seq<LibraryCall>, request: CameraRequest) {
    forall k :: 0 <= k < |log| && log[k].CameraOpen? ==> log[k].request == request
  }

  /** In a log that keeps the single-camera rule, every open but the last-held camera's has been closed. */
  lemma {:induction false} OpenCloseBalance(log: seq<LibraryCall>)
    requires Replay(log).Some?
    ensures Opens(log) == Closes(log) + (if Replay(log).value.Some? then 1 else 0)
  {
    if log != [] {
      OpenCloseBalance(log[..|log| - 1]);
    }
  }

  lemma ReplaySnoc(log: seq<LibraryCall>, call: LibraryCall)
    requires Replay(log).Some?
    ensures Replay(log + [call]) == Step(Replay(log).value, call)
    ensures OpensUse(log + [call], DEFAULT_REQUEST)
        <==> OpensUse(log, DEFAULT_REQUEST) && (call.CameraOpen? ==> call.request == DEFAULT_REQUEST)
  {
    assert (log + [call])[..|log|] == log;
    OpensUseSnoc(log, call);
  }

  lemma OpensUseSnoc(log: seq<LibraryCall>, call: LibraryCall)
    ensures OpensUse(log + [call], DEFAULT_REQUEST)
        <==> OpensUse(log, DEFAULT_REQUEST) && (call.CameraOpen? ==> call.request == DEFAULT_REQUEST)
  {
    assert forall k :: 0 <= k < |log| ==> (log + [call])[k] == log[k];
    assert (log + [call])[|log|] == call;
  }

  /** The library calls of `closeCamera`: one close when a camera is held, none otherwise. */
  function CloseCalls(held: Option<CameraUVC>): seq<LibraryCall> {
    if held.Some? then [CameraClose(held.value)] else []
  }

  /**
   * The library calls of `openCamera` after the close: the camera is created on the device and
   * given the control block, then opened with the default request, then given the preview callback.
   */
  function OpenCalls(camera: CameraUVC, device: UsbDevice, ctrlBlock: Option<UsbControlBlock>): seq<LibraryCall> {
    [CameraCreate(camera, device), CameraSetUsbControlBlock(camera, ctrlBlock),
     CameraOpen(camera, DEFAULT_REQUEST), CameraAddPreviewDataCallBack(camera)]
  }

  /** The library calls of `destroy` after its `closeCamera`, when the client exists. */
  const TEARDOWN_CALLS: seq<LibraryCall> := [ClientUnRegister, ClientDestroy]

  // ---- the manager ----

  class USBCameraManager {
    /** Whether the `lateinit` `multiCameraClient` has been assigned by `initialize`. */
    var initialized: bool
    var cameraDevice: Option<CameraUVC>
    var frameCallback: Option<FrameCallback>
    /** Every call made into the library so far, in order. */
    ghost var calls: seq<LibraryCall>

    /** The log keeps the single-camera rule, ends with `cameraDevice` open, and opens use one request. */
    ghost predicate Valid()
      reads this
    {
      Replay(calls) == Some(cameraDevice) && OpensUse(calls, DEFAULT_REQUEST)
    }

    constructor ()
      ensures Valid()
      ensures !initialized && cameraDevice == None && frameCallback == None && calls == []
    {
      initialized := false;
      cameraDevice := None;
      frameCallback := None;
      calls := [];
    }

    /** Creates the client with the device callbacks and registers it. */
    method Initialize()
      requires Valid()
      modifies this
      ensures Valid()
      ensures initialized
      ensures cameraDevice == old(cameraDevice) && frameCallback == old(frameCallback)
      ensures calls == old(calls) + [ClientCreate, ClientRegister]
    {
      initialized := true;
      ghost var log := calls;
      ReplaySnoc(log, ClientCreate);
      ReplaySnoc(log + [ClientCreate], ClientRegister);
      assert log + [ClientCreate] + [ClientRegister] == log + [ClientCreate, ClientRegister];
      calls := log + [ClientCreate, ClientRegister];
    }

    /** Releases the held camera, if any; the slot is empty afterwards. */
    method CloseCamera()
      requires Valid()
      modifies this
      ensures Valid()
      ensures cameraDevice == None
      ensures calls == old(calls) + CloseCalls(old(cameraDevice))
      ensures initialized == old(initialized) && frameCallback == old(frameCallback)
    {
      if cameraDevice.Some? {
        ReplaySnoc(calls, CameraClose(cameraDevice.value));
        calls := calls + [CameraClose(cameraDevice.value)];
      } else {
        assert calls + [] == calls;
      }
      cameraDevice := None;
    }

    /** Opens a new camera on `usbDevice`, closing the held one first. */
    method OpenCamera(usbDevice: UsbDevice, ctrlBlock: Option<UsbControlBlock>)
      requires Valid()
      modifies this
      ensures Valid()
      ensures cameraDevice.Some? && fresh(cameraDevice.value)
      ensures cameraDevice.value.device == usbDevice && cameraDevice.value.ctrlBlock == ctrlBlock
      ensures calls == old(calls) + CloseCalls(old(cameraDevice)) + OpenCalls(cameraDevice.value, usbDevice, ctrlBlock)
      ensures initialized == old(initialized) && frameCallback == old(frameCallback)
    {
      if cameraDevice.Some? {
        CloseCamera();
      } else {
        assert calls + CloseCalls(cameraDevice) == calls;
      }
      ghost var closed := calls;
      var camera := new CameraUVC(usbDevice);
      camera.SetUsbControlBlock(ctrlBlock);
      ghost var create, setBlock := CameraCreate(camera, usbDevice), CameraSetUsbControlBlock(camera, ctrlBlock);
      ReplaySnoc(closed, create);
      ReplaySnoc(closed + [create], setBlock);
      ghost var prepared := closed + [create] + [setBlock];
      var open := CameraOpen(camera, DEFAULT_REQUEST);
      var add := CameraAddPreviewDataCallBack(camera);
      ReplaySnoc(prepared, open);
      ReplaySnoc(prepared + [open], add);
      assert prepared + [open] + [add] == closed + OpenCalls(camera, usbDevice, ctrlBlock);
      calls := closed + OpenCalls(camera, usbDevice, ctrlBlock);
      cameraDevice := Some(camera);
    }

    /** `onAttachDev`: asks the user for permission for a non-null device. */
    method OnAttachDev(device: Option<UsbDevice>)
      requires Valid() && initialized
      modifies this
      ensures Valid()
      ensures calls == old(calls) + (if device.Some? then [ClientRequestPermission(device.value)] else [])
      ensures cameraDevice == old(cameraDevice) && frameCallback == old(frameCallback)
      ensures initialized
    {
      if device.Some? {
        ReplaySnoc(calls, ClientRequestPermission(device.value));
        calls := calls + [ClientRequestPermission(device.value)];
      } else {
        assert calls + [] == calls;
      }
    }

    /** `onConnectDev`: opens a camera on a non-null device; a null device changes nothing. */
    method OnConnectDev(device: Option<UsbDevice>, ctrlBlock: Option<UsbControlBlock>)
      requires Valid()
      modifies this
      ensures Valid()
      ensures device.None? ==> cameraDevice == old(cameraDevice) && calls == old(calls)
      ensures device.Some? ==>
        cameraDevice.Some? && fresh(cameraDevice.value)
        && cameraDevice.value.device == device.value && cameraDevice.value.ctrlBlock == ctrlBlock
        && calls == old(calls) + CloseCalls(old(cameraDevice)) + OpenCalls(cameraDevice.value, device.value, ctrlBlock)
      ensures initialized == old(initialized) && frameCallback == old(frameCallback)
    {
      if device.Some? {
        OpenCamera(device.value, ctrlBlock);
      }
    }

    /** `onDisConnectDec`: closes the held camera, whichever device is named. */
    method OnDisConnectDec(device: Option<UsbDevice>, ctrlBlock: Option<UsbControlBlock>)
      requires Valid()
      modifies this
      ensures Valid()
      ensures cameraDevice == None
      ensures calls == old(calls) + CloseCalls(old(cameraDevice))
      ensures initialized == old(initialized) && frameCallback == old(frameCallback)
    {
      CloseCamera();
    }

    /** `onDetachDec`: closes the held camera, whichever device is named. */
    method OnDetachDec(device: Option<UsbDevice>)
      requires Valid()
      modifies this
      ensures Valid()
      ensures cameraDevice == None
      ensures calls == old(calls) + CloseCalls(old(cameraDevice))
      ensures initialized == old(initialized) && frameCallback == old(frameCallback)
    {
      CloseCamera();
    }

    /** `onCancelDev`: the user refused permission; only a log line. */
    method OnCancelDev(device: Option<UsbDevice>)
      ensures unchanged(this)
    {
    }

    method SetFrameCallback(callback: FrameCallback)
      requires Valid()
      modifies this
      ensures Valid()
      ensures frameCallback == Some(callback)
      ensures cameraDevice == old(cameraDevice) && calls == old(calls) && initialized == old(initialized)
    {
      frameCallback := Some(callback);
    }

    /**
     * `onPreviewData`: the frame handed to the app's callback, if any. `nowMillis` stands for
     * `System.currentTimeMillis()`.
     */
    method OnPreviewData(data: Option<seq<byte>>, width: int, height: int, format: DataFormat, nowMillis: int)
      returns (delivery: Option<FrameDelivery>)
      ensures delivery.Some? <==> format == JPEG && data.Some? && frameCallback.Some?
      ensures delivery.Some? ==>
        delivery.value == FrameDelivery(frameCallback.value, data.value, width, height, nowMillis)
    {
      delivery := None;
      if format == JPEG && data.Some? {
        if frameCallback.Some? {
          delivery := Some(FrameDelivery(frameCallback.value, data.value, width, height, nowMillis));
        }
      }
    }

    /**
     * Closes the camera, then unregisters and destroys the client. Without `initialize` the
     * client was never assigned: the close still happens, then the access to the `lateinit`
     * field throws, which `uninitializedAccess` reports.
     */
    method Destroy() returns (uninitializedAccess: bool)
      requires Valid()
      modifies this
      ensures Valid()
      ensures cameraDevice == None
      ensures uninitializedAccess == !initialized
      ensures calls == old(calls) + CloseCalls(old(cameraDevice)) + (if initialized then TEARDOWN_CALLS else [])
      ensures initialized == old(initialized) && frameCallback == old(frameCallback)
    {
      CloseCamera();
      ghost var closed := calls;
      uninitializedAccess := !initialized;
      if initialized {
        ReleaseClient();
      } else {
        assert closed + [] == closed;
      }
    }

    /** The last two calls of `destroy`: the client is unregistered, then destroyed. */
    method ReleaseClient()
      requires Valid() && initialized
      modifies this
      ensures Valid()
      ensures calls == old(calls) + TEARDOWN_CALLS
      ensures cameraDevice == old(cameraDevice) && initialized && frameCallback == old(frameCallback)
    {
      ghost var log := calls;
      ReplaySnoc(log, ClientUnRegister);
      ReplaySnoc(log + [ClientUnRegister], ClientDestroy);
      assert log + [ClientUnRegister] + [ClientDestroy] == log + TEARDOWN_CALLS;
      calls := log + TEARDOWN_CALLS;
    }
  }

  /** The count invariant of a manager: library opens minus closes is 1 exactly when a camera is held. */
  lemma HeldCameraBalance(m: USBCameraManager)
    requires m.Valid()
    ensures Opens(m.calls) == Closes(m.calls) + (if m.cameraDevice.Some? then 1 else 0)
  {
    OpenCloseBalance(m.calls);
  }
}
