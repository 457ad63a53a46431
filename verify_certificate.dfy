/** The public verification page: read a certificate address from a camera
    scan, an image file or a typed field, look the account up on the ledger
    and show it; choose and flip cameras and remember the last one used. */
module VerifyCertificate {
  import opened JsCore
  import opened LocalStore
  import DetailsCard

  // ---------------------------------------------------------------------
  // ensureHttpsOrLocal

  /** `window.location`, or no window at all (server-side rendering). */
  datatype Location = NoWindow | Window(hostname: string, protocol: string)

  const LocalHosts: seq<string> := ["localhost", "127.0.0.1"]

  /** `ensureHttpsOrLocal`: the camera may be used. */
  function EnsureHttpsOrLocal(loc: Location): (ok: bool)
    ensures ok <==> loc.NoWindow? || loc.hostname == "localhost" || loc.hostname == "127.0.0.1" || loc.protocol == "https:"
  {
    if loc.NoWindow? then true
    else loc.hostname in LocalHosts || loc.protocol == "https:"
  }

  /** Plain http is refused for every host but the two local names: the
      host is compared exactly, so a sub-domain of localhost or another
      loopback address does not pass. */
  lemma PlainHttpOnlyOnLocalHost(hostname: string)
    ensures !EnsureHttpsOrLocal(Window(hostname, "http:")) <==> hostname != "localhost" && hostname != "127.0.0.1"
    ensures !EnsureHttpsOrLocal(Window("127.0.0.2", "http:"))
    ensures !EnsureHttpsOrLocal(Window("app.localhost", "http:"))
    ensures EnsureHttpsOrLocal(Window(hostname, "https:"))
  {
  }

  // ---------------------------------------------------------------------
  // Cameras

  /** A video input as `Html5Qrcode.getCameras` lists it; a missing label is "". */
  datatype Camera = Camera(id: string, deviceLabel: string)

  /** `/back|rear|environment/.test(lower(d.label))` */
  predicate LooksBack(c: Camera)
  {
    var l := Lower(c.deviceLabel);
    Contains(l, "back") || Contains(l, "rear") || Contains(l, "environment")
  }

  /** The index `devices.find` stops at: the first back-facing device. */
  function FirstBack(devices: seq<Camera>): (r: Option<nat>)
    ensures r.Some? ==> r.value < |devices| && LooksBack(devices[r.value])
                        && forall j :: 0 <= j < r.value ==> !LooksBack(devices[j])
    ensures r.None? ==> forall j :: 0 <= j < |devices| ==> !LooksBack(devices[j])
  {
    if devices == [] then None
    else if LooksBack(devices[0]) then Some(0)
    else
      var r := FirstBack(devices[1..]);
      if r.Some? then Some(r.value + 1) else None
  }

  /** `bestBackCameraId`: the first back-facing device's id when it is
      non-empty, else the last device's id, else "". */
  function BestBackCameraId(devices: seq<Camera>): (id: string)
    ensures id == "" || exists i :: 0 <= i < |devices| && devices[i].id == id
  {
    var back := FirstBack(devices);
    if back.Some? && devices[back.value].id != "" then devices[back.value].id
    else if |devices| > 0 then devices[|devices| - 1].id
    else ""
  }

  /** The first back-facing device wins, whatever comes after it. */
  lemma FirstBackFacingWins(devices: seq<Camera>, i: nat)
    requires i < |devices| && LooksBack(devices[i]) && devices[i].id != ""
    requires forall j :: 0 <= j < i ==> !LooksBack(devices[j])
    ensures BestBackCameraId(devices) == devices[i].id
  {
    var back := FirstBack(devices);
    assert back == Some(i);
  }

  /** Without a back-facing device the last one is taken; "" for no devices. */
  lemma NoBackFacingTakesLast(devices: seq<Camera>)
    requires forall j :: 0 <= j < |devices| ==> !LooksBack(devices[j])
    ensures BestBackCameraId(devices) == if devices == [] then "" else devices[|devices| - 1].id
  {
    assert FirstBack(devices).None?;
  }

  /** The localStorage key of the last camera used. */
  const LsCameraKey: string := "qr_last_camera_id"

  /** `list.find(c => c.id === stored)?.id`: the stored id when a device has it. */
  function StoredMatch(list: seq<Camera>, stored: Option<string>): (r: Option<string>)
    ensures r.Some? <==> stored.Some? && exists i :: 0 <= i < |list| && list[i].id == stored.value
    ensures r.Some? ==> r.value == stored.value
  {
    if stored.Some? && exists i :: 0 <= i < |list| && list[i].id == stored.value then Some(stored.value) else None
  }

  /** The camera chosen when the list arrives: the stored one, else the best
      back camera, else the first, else "" (each step skipping an empty id). */
  function InitialCamera(list: seq<Camera>, stored: Option<string>): (pick: string)
    ensures pick == "" || exists i :: 0 <= i < |list| && list[i].id == pick
  {
    var s := StoredMatch(list, stored);
    if s.Some? && s.value != "" then s.value
    else if BestBackCameraId(list) != "" then BestBackCameraId(list)
    else if |list| > 0 then list[0].id
    else ""
  }

  /** A stored camera that is still connected is chosen again. */
  lemma StoredCameraIsChosenAgain(list: seq<Camera>, id: string, i: nat)
    requires i < |list| && list[i].id == id && id != ""
    ensures InitialCamera(list, Some(id)) == id
  {
    assert StoredMatch(list, Some(id)).Some?;
  }

  /** A stored camera that is gone does not block the choice: the pick is
      then the one made with nothing stored. */
  lemma UnknownStoredCameraIsIgnored(list: seq<Camera>, id: string)
    requires forall i :: 0 <= i < |list| ==> list[i].id != id
    ensures InitialCamera(list, Some(id)) == InitialCamera(list, None)
  {
  }

  /** With no usable stored camera (none listed, or an empty id), the first back-facing device with an
      id is chosen, whatever comes after it. */
  lemma UnmatchedStoredPrefersBackCamera(list: seq<Camera>, stored: Option<string>, i: nat)
    requires StoredMatch(list, stored).None? || StoredMatch(list, stored) == Some("")
    requires i < |list| && LooksBack(list[i]) && list[i].id != ""
    requires forall j :: 0 <= j < i ==> !LooksBack(list[j])
    ensures InitialCamera(list, stored) == list[i].id
  {
    FirstBackFacingWins(list, i);
  }

  /** With no usable stored camera and no back-facing device, the last
      device is chosen; when its id is empty, the first device's id. */
  lemma UnmatchedStoredWithoutBackCamera(list: seq<Camera>, stored: Option<string>)
    requires StoredMatch(list, stored).None? || StoredMatch(list, stored) == Some("")
    requires forall j :: 0 <= j < |list| ==> !LooksBack(list[j])
    ensures list == [] ==> InitialCamera(list, stored) == ""
    ensures list != [] ==>
      InitialCamera(list, stored) == if list[|list| - 1].id != "" then list[|list| - 1].id else list[0].id
  {
    NoBackFacingTakesLast(list);
  }

  /** When every device has an id, some camera is always chosen. */
  lemma SomeCameraIsChosen(list: seq<Camera>, stored: Option<string>)
    requires list != [] && forall i :: 0 <= i < |list| ==> list[i].id != ""
    ensures InitialCamera(list, stored) != ""
  {
  }

  predicate DistinctIds(cams: seq<Camera>)
  {
    forall i, j :: 0 <= i < j < |cams| ==> cams[i].id != cams[j].id
  }

  /** `cams.findIndex(c => c.id === camId)`, -1 when absent. */
  function FindIndex(cams: seq<Camera>, id: string): (k: int)
    ensures -1 <= k < |cams|
    ensures k >= 0 ==> cams[k].id == id && forall j :: 0 <= j < k ==> cams[j].id != id
    ensures k == -1 ==> forall j :: 0 <= j < |cams| ==> cams[j].id != id
  {
    if cams == [] then -1
    else if cams[0].id == id then 0
    else
      var k := FindIndex(cams[1..], id);
      if k == -1 then -1 else k + 1
  }

  /** The camera `flipCamera` leaves selected. */
  function Flipped(cams: seq<Camera>, camId: string): string
  {
    if |cams| < 2 then camId
    else
      var next := cams[(FindIndex(cams, camId) + 1) % |cams|].id;
      if next != "" then next else camId
  }

  /** The index after `p` in a ring of `n`. */
  function NextIndex(p: nat, n: nat): nat
  {
    if p + 1 < n then p + 1 else 0
  }

  /** With distinct ids a flip moves to the next camera, wrapping around
      from the last to the first. */
  lemma FlipAdvances(cams: seq<Camera>, i: nat)
    requires DistinctIds(cams) && 2 <= |cams| && i < |cams| && cams[NextIndex(i, |cams|)].id != ""
    ensures Flipped(cams, cams[i].id) == cams[NextIndex(i, |cams|)].id
  {
    assert FindIndex(cams, cams[i].id) == i;
    if i + 1 < |cams| {
      ModSmall(i + 1, |cams|);
    } else {
      ModSelf(|cams|);
    }
  }

  lemma ModSmall(x: nat, n: nat)
    requires x < n
    ensures x % n == x
  {
  }

  lemma ModSelf(n: nat)
    requires 0 < n
    ensures n % n == 0
  {
  }

  /** From a camera not in the list a flip selects the first one. */
  lemma FlipFromUnknownTakesFirst(cams: seq<Camera>, camId: string)
    requires 2 <= |cams| && cams[0].id != ""
    requires forall j :: 0 <= j < |cams| ==> cams[j].id != camId
    ensures Flipped(cams, camId) == cams[0].id
  {
  }

  /** `k` flips in a row. */
  function FlipTimes(cams: seq<Camera>, camId: string, k: nat): string
  {
    if k == 0 then camId else Flipped(cams, FlipTimes(cams, camId, k - 1))
  }

  /** `k` steps round a ring of `n` from `i`. */
  function Steps(i: nat, k: nat, n: nat): nat
  {
    if k == 0 then i else NextIndex(Steps(i, k - 1, n), n)
  }

  /** Flipping visits the cameras in list order: after `k` flips from the
      `i`-th camera the camera `k` steps further round the list is selected. */
  lemma {:induction false} FlipsCycle(cams: seq<Camera>, i: nat, k: nat)
    requires DistinctIds(cams) && 2 <= |cams| && i < |cams|
    requires forall j :: 0 <= j < |cams| ==> cams[j].id != ""
    ensures Steps(i, k, |cams|) < |cams|
    ensures FlipTimes(cams, cams[i].id, k) == cams[Steps(i, k, |cams|)].id
  {
    if k > 0 {
      FlipsCycle(cams, i, k - 1);
      FlipAdvances(cams, Steps(i, k - 1, |cams|));
    }
  }

  lemma {:induction false} StepsWrapOnce(i: nat, k: nat, n: nat)
    requires i < n && k <= n
    ensures Steps(i, k, n) == if i + k < n then i + k else i + k - n
  {
    if k > 0 {
      StepsWrapOnce(i, k - 1, n);
    }
  }

  /** `n` flips come back to the camera they started from. */
  lemma FullTurnReturns(cams: seq<Camera>, i: nat)
    requires DistinctIds(cams) && 2 <= |cams| && i < |cams|
    requires forall j :: 0 <= j < |cams| ==> cams[j].id != ""
    ensures FlipTimes(cams, cams[i].id, |cams|) == cams[i].id
  {
    FlipsCycle(cams, i, |cams|);
    StepsWrapOnce(i, |cams|, |cams|);
  }

  // ---------------------------------------------------------------------
  // Looking an address up

  const NotFoundQr: string := "Certificate not found or invalid QR payload."
  const NotFoundManual: string := "Account not found or invalid address."
  const UnreadableImage: string := "Could not read a QR from this image. Try a clearer, larger QR."
  const SelectImageOnly: string := "Please select an image file (PNG/JPG)."
  const DropImageOnly: string := "Please drop an image file (PNG/JPG)."
  const CameraNeedsHttps: string := "Camera requires HTTPS or http://localhost."
  const CamerasUnavailable: string := "Unable to access cameras. Check permissions and reload."
  const NoCameraSelected: string := "No camera Selected."

  /** What the result area shows: the error, the account data, the address. */
  datatype Shown = Shown(error: string, data: Option<DetailsCard.CardData>, addr: string)

  /** The lookup shared by the scan and the typed address: `new PublicKey`
      of the trimmed text (`decodeKey` gives its canonical base58 text, or
      None where the constructor throws), then the account fetch (None where
      it throws). Any failure shows `failMsg` and nothing else. */
  function LookupShown(input: string, decodeKey: string -> Option<string>,
                       fetch: string -> Option<DetailsCard.CardData>, failMsg: string): Shown
  {
    var key := decodeKey(Trim(input));
    if key.None? then Shown(failMsg, None, "")
    else
      var cert := fetch(key.value);
      if cert.None? then Shown(failMsg, None, "") else Shown("", cert, key.value)
  }

  /** The account is shown exactly when the trimmed text is a key and its
      account is fetched; the address shown is the key's canonical text. */
  lemma LookupFoundIffKeyAndAccount(input: string, decodeKey: string -> Option<string>,
                                    fetch: string -> Option<DetailsCard.CardData>, failMsg: string)
    ensures var s := LookupShown(input, decodeKey, fetch, failMsg);
            (s.data.Some? <==> decodeKey(Trim(input)).Some? && fetch(decodeKey(Trim(input)).value).Some?)
            && (s.data.Some? ==> s.addr == decodeKey(Trim(input)).value && s.error == ""
                                 && s.data == fetch(s.addr))
            && (s.data.None? ==> s.addr == "" && s.error == failMsg)
  {
  }

  /** Whitespace around the payload does not change the lookup. */
  lemma LookupIgnoresSurroundingSpace(input: string, decodeKey: string -> Option<string>,
                                      fetch: string -> Option<DetailsCard.CardData>, failMsg: string)
    ensures LookupShown(Trim(input), decodeKey, fetch, failMsg) == LookupShown(input, decodeKey, fetch, failMsg)
  {
    TrimIsIdempotent(input);
  }

  /** The select-file scan result: html5-qrcode throws, or yields the
      decoded text ("" when nothing was decoded). */
  datatype ImageScan = ScanThrew | Decoded(text: string)

  /** After an image is scanned: an unreadable image shows its own message;
      a decoded payload goes through the same lookup as a camera scan. */
  function ImageShown(scan: ImageScan, decodeKey: string -> Option<string>,
                      fetch: string -> Option<DetailsCard.CardData>): Shown
  {
    if scan.ScanThrew? || scan.text == "" then Shown(UnreadableImage, None, "")
    else LookupShown(scan.text, decodeKey, fetch, NotFoundQr)
  }

  /** Each outcome of the image route shows data or an error, never both. */
  lemma ImageShowsDataOrError(scan: ImageScan, decodeKey: string -> Option<string>,
                              fetch: string -> Option<DetailsCard.CardData>)
    ensures var s := ImageShown(scan, decodeKey, fetch);
            (s.data.Some? <==> s.error == "") && (s.data.None? ==> s.addr == "")
            && (s.data.Some? ==> scan.Decoded? && scan.text != ""
                                 && s == LookupShown(scan.text, decodeKey, fetch, NotFoundQr))
  {
  }

  /** A picked file: its MIME type and its content. */
  datatype PickedFile = PickedFile(mimeType: string, content: seq<byte>)

  datatype Mode = CameraMode | FileMode | ManualMode

  /** `getCameras`: the device list, or a rejection. */
  datatype CameraList = Cameras(list: seq<Camera>) | EnumerationFailed

  // ---------------------------------------------------------------------
  // The page

  /** The component's state. The html5-qrcode instances, the serial
      operation queue and the cancellation flags are not modelled. */
  class Page {
    var mode: Mode
    var busy: bool
    var error: string
    var data: Option<DetailsCard.CardData>
    var scannedAddr: string
    var cams: seq<Camera>
    var camId: string
    var isRunning: bool
    var startNonce: nat

    predicate Shows(s: Shown)
      reads this
    {
      error == s.error && data == s.data && scannedAddr == s.addr
    }

    constructor ()
      ensures mode == CameraMode && !busy && error == "" && data.None? && scannedAddr == ""
      ensures cams == [] && camId == "" && !isRunning && startNonce == 0
    {
      mode, busy, error, data, scannedAddr := CameraMode, false, "", None, "";
      cams, camId, isRunning, startNonce := [], "", false, 0;
    }

    /** `handleDecodedText`: the busy flag is down again at the end. */
    method HandleDecodedText(decodedText: string, decodeKey: string -> Option<string>,
                             fetch: string -> Option<DetailsCard.CardData>)
      modifies this`busy, this`error, this`data, this`scannedAddr
      ensures !busy && Shows(LookupShown(decodedText, decodeKey, fetch, NotFoundQr))
    {
      busy, error, data, scannedAddr := true, "", None, "";
      var key := decodeKey(Trim(decodedText));
      if key.Some? {
        var cert := fetch(key.value);
        if cert.Some? {
          scannedAddr := key.value;
          data := cert;
        } else {
          error := NotFoundQr;
        }
      } else {
        error := NotFoundQr;
      }
      busy := false;
    }

    /** The camera's success callback: the scan stops, then the text is handled. */
    method OnScanSuccess(decodedText: string, decodeKey: string -> Option<string>,
                         fetch: string -> Option<DetailsCard.CardData>)
      modifies this`isRunning, this`busy, this`error, this`data, this`scannedAddr
      ensures !isRunning && !busy && Shows(LookupShown(decodedText, decodeKey, fetch, NotFoundQr))
    {
      isRunning := false;
      HandleDecodedText(decodedText, decodeKey, fetch);
    }

    /** `verifyManual`: the form's `pda` field (None when absent), as text. */
    method VerifyManual(field: Option<string>, decodeKey: string -> Option<string>,
                        fetch: string -> Option<DetailsCard.CardData>)
      modifies this`busy, this`error, this`data, this`scannedAddr
      ensures var input := if field.Some? then field.value else "";
              !busy && Shows(LookupShown(input, decodeKey, fetch, NotFoundManual))
    {
      var input := if field.Some? then field.value else "";
      busy, error, data, scannedAddr := true, "", None, "";
      var key := decodeKey(Trim(input));
      if key.Some? {
        var cert := fetch(key.value);
        if cert.Some? {
          scannedAddr := key.value;
          data := cert;
        } else {
          error := NotFoundManual;
        }
      } else {
        error := NotFoundManual;
      }
      busy := false;
    }

    /** `onFileSelected` for a file that passed the type check. */
    method ScanImage(scan: ImageScan, decodeKey: string -> Option<string>,
                     fetch: string -> Option<DetailsCard.CardData>)
      modifies this`busy, this`error, this`data, this`scannedAddr
      ensures !busy && Shows(ImageShown(scan, decodeKey, fetch))
    {
      error, data, scannedAddr, busy := "", None, "", true;
      if scan.ScanThrew? || scan.text == "" {
        error := UnreadableImage;
      } else {
        HandleDecodedText(scan.text, decodeKey, fetch);
      }
      busy := false;
    }

    /** The shared body of `onFileInputChange` and `onDrop`: nothing for no
        file; a file whose type is not `image/...` only sets `rejectMsg`
        and is never scanned. `scanned` says whether the scanner ran. */
    method ChooseFile(file: Option<PickedFile>, rejectMsg: string, scan: ImageScan,
                      decodeKey: string -> Option<string>, fetch: string -> Option<DetailsCard.CardData>)
      returns (scanned: bool)
      modifies this`busy, this`error, this`data, this`scannedAddr
      ensures scanned <==> file.Some? && StartsWith(file.value.mimeType, "image/")
      ensures file.None? ==> error == old(error) && data == old(data) && scannedAddr == old(scannedAddr) && busy == old(busy)
      ensures file.Some? && !scanned ==>
                error == rejectMsg && data == old(data) && scannedAddr == old(scannedAddr) && busy == old(busy)
      ensures scanned ==> !busy && Shows(ImageShown(scan, decodeKey, fetch))
    {
      scanned := false;
      if file.None? {
        return;
      }
      if !StartsWith(file.value.mimeType, "image/") {
        error := rejectMsg;
        return;
      }
      scanned := true;
      ScanImage(scan, decodeKey, fetch);
    }

    /** `onFileInputChange` */
    method OnFileInputChange(file: Option<PickedFile>, scan: ImageScan,
                             decodeKey: string -> Option<string>, fetch: string -> Option<DetailsCard.CardData>)
      returns (scanned: bool)
      modifies this`busy, this`error, this`data, this`scannedAddr
      ensures scanned <==> file.Some? && StartsWith(file.value.mimeType, "image/")
      ensures file.None? ==> error == old(error) && data == old(data) && scannedAddr == old(scannedAddr) && busy == old(busy)
      ensures file.Some? && !scanned ==>
                error == SelectImageOnly && data == old(data) && scannedAddr == old(scannedAddr) && busy == old(busy)
      ensures scanned ==> !busy && Shows(ImageShown(scan, decodeKey, fetch))
    {
      scanned := ChooseFile(file, SelectImageOnly, scan, decodeKey, fetch);
    }

    /** `onDrop` */
    method OnDrop(file: Option<PickedFile>, scan: ImageScan,
                  decodeKey: string -> Option<string>, fetch: string -> Option<DetailsCard.CardData>)
      returns (scanned: bool)
      modifies this`busy, this`error, this`data, this`scannedAddr
      ensures scanned <==> file.Some? && StartsWith(file.value.mimeType, "image/")
      ensures file.None? ==> error == old(error) && data == old(data) && scannedAddr == old(scannedAddr) && busy == old(busy)
      ensures file.Some? && !scanned ==>
                error == DropImageOnly && data == old(data) && scannedAddr == old(scannedAddr) && busy == old(busy)
      ensures scanned ==> !busy && Shows(ImageShown(scan, decodeKey, fetch))
    {
      scanned := ChooseFile(file, DropImageOnly, scan, decodeKey, fetch);
    }

    /** `clearResult` */
    method ClearResult()
      modifies this`error, this`data, this`scannedAddr
      ensures Shows(Shown("", None, ""))
    {
      data, scannedAddr, error := None, "", "";
    }

    /** The camera-mode effect: it clears the result, refuses an insecure
        origin, and otherwise lists the cameras and picks one, `stored`
        being the id kept under `LsCameraKey`. */
    method EnumerateCameras(loc: Location, cameras: CameraList, stored: Option<string>)
      modifies this`error, this`data, this`scannedAddr, this`cams, this`camId
      ensures mode != CameraMode ==>
                error == old(error) && data == old(data) && scannedAddr == old(scannedAddr)
                && cams == old(cams) && camId == old(camId)
      ensures mode == CameraMode ==> data.None? && scannedAddr == ""
      ensures mode == CameraMode && !EnsureHttpsOrLocal(loc) ==>
                error == CameraNeedsHttps && cams == old(cams) && camId == old(camId)
      ensures mode == CameraMode && EnsureHttpsOrLocal(loc) && cameras.EnumerationFailed? ==>
                error == CamerasUnavailable && cams == old(cams) && camId == old(camId)
      ensures mode == CameraMode && EnsureHttpsOrLocal(loc) && cameras.Cameras? ==>
                error == "" && cams == cameras.list && camId == InitialCamera(cameras.list, stored)
    {
      if mode != CameraMode {
        return;
      }
      error, data, scannedAddr := "", None, "";
      if !EnsureHttpsOrLocal(loc) {
        error := CameraNeedsHttps;
        return;
      }
      if cameras.EnumerationFailed? {
        error := CamerasUnavailable;
        return;
      }
      cams := cameras.list;
      camId := InitialCamera(cameras.list, stored);
    }

    /** A mode pill: a change into camera mode runs the camera-mode effect
        with the stored camera id. */
    method SelectMode(m: Mode, loc: Location, cameras: CameraList, store: LocalStorage)
      modifies this`mode, this`error, this`data, this`scannedAddr, this`cams, this`camId
      ensures mode == m
      ensures (m != CameraMode || old(mode) == CameraMode) ==>
                error == old(error) && data == old(data) && scannedAddr == old(scannedAddr)
                && cams == old(cams) && camId == old(camId)
      ensures m == CameraMode && old(mode) != CameraMode && EnsureHttpsOrLocal(loc) && cameras.Cameras? ==>
                data.None? && scannedAddr == "" && error == ""
                && cams == cameras.list && camId == InitialCamera(cameras.list, store.GetItem(LsCameraKey))
    {
      var changed := m != mode;
      mode := m;
      if changed && m == CameraMode {
        EnumerateCameras(loc, cameras, store.GetItem(LsCameraKey));
      }
    }

    /** The start effect: with no camera chosen it only reports that (when
        there are cameras); otherwise it stores the chosen id and starts
        the scanner, `started` being whether any of the three start
        attempts succeeded. */
    method StartCamera(store: LocalStorage, started: bool)
      requires store.Valid()
      modifies this`error, this`isRunning, store
      ensures store.Valid()
      ensures camId == "" ==>
                error == (if |cams| > 0 then NoCameraSelected else old(error))
                && isRunning == old(isRunning)
                && store.keys == old(store.keys) && store.values == old(store.values)
      ensures camId != "" ==>
                error == "" && isRunning == started
                && store.values == old(store.values)[LsCameraKey := camId]
                && store.GetItem(LsCameraKey) == Some(camId)
    {
      if camId == "" {
        if |cams| > 0 {
          error := NoCameraSelected;
        }
        return;
      }
      error := "";
      store.SetItem(LsCameraKey, camId);
      isRunning := started;
    }

    /** `restartScan`: the start effect runs again. */
    method RestartScan(store: LocalStorage, started: bool)
      requires store.Valid()
      modifies this`startNonce, this`error, this`isRunning, store
      ensures store.Valid() && startNonce == old(startNonce) + 1
      ensures camId != "" ==> error == "" && isRunning == started && store.GetItem(LsCameraKey) == Some(camId)
    {
      startNonce := startNonce + 1;
      StartCamera(store, started);
    }

    /** The Stop button. */
    method StopScan()
      modifies this`isRunning
      ensures !isRunning
    {
      isRunning := false;
    }

    /** `flipCamera` */
    method FlipCamera()
      modifies this`camId
      ensures camId == Flipped(cams, old(camId))
      ensures |cams| < 2 ==> camId == old(camId)
    {
      if |cams| < 2 {
        return;
      }
      var idx := FindIndex(cams, camId);
      var next := cams[(idx + 1) % |cams|].id;
      if next != "" {
        camId := next;
      }
    }
  }
}
