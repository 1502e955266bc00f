/**
 * The acquisition of a license's publication: validate the license's
 * publication link, allocate the destination file, dispatch the download,
 * check the file against the link's hash, and forward the download's events
 * to the caller's observer.
 *
 * The file system, network and crypto providers are collaborators: their
 * answers are given as functions, and every call made to them is recorded,
 * in order, in the ghost trace `effects`.
 */
module LcpAcquisition {
  import opened Wrappers

  /** The status codes this component returns; collaborators may report any other code. */
  datatype StatusCode =
    | ErrorCommonSuccess
    | ErrorCommonFail        // produced only by Start's catch-all for unexpected exceptions, which is not modelled
    | ErrorAcquisitionNoAcquisitionLink
    | ErrorAcquisitionPublicationWrongType
    | ErrorAcquisitionInvalidFilePath
    | ErrorAcquisitionPublicationCorrupted
    | OtherCode(name: string)

  datatype Status = Status(code: StatusCode, extension: string)

  /** A status built from a code alone, as the component builds its own. */
  function Code(code: StatusCode): Status {
    Status(code, "")
  }

  predicate IsSuccess(status: Status) {
    status.code == ErrorCommonSuccess
  }

  /** The only content type accepted for a publication link. */
  const PublicationType: string := "application/epub+zip"

  /** A link of the license: content type, location and expected hex digest (empty when none). */
  datatype Link = Link(contentType: string, href: string, hash: string)

  datatype FileHandle = FileHandle(path: string)

  newtype byte = x: int | 0 <= x < 256

  /** The crypto provider: digest of a file, and hex encoding of a digest, each with a status. */
  type HashFunction = FileHandle -> (Status, seq<byte>)
  type HexFunction = seq<byte> -> (Status, string)

  /** One call into a collaborator. */
  datatype Effect =
    | GetFile(path: string)
    | StartDownloadRequest(url: string, file: FileHandle)
    | CalculateFileHash(file: FileHandle)
    | ConvertRawToHex(rawHash: seq<byte>)

  /** The number of downloads dispatched in a trace. */
  function Dispatches(effects: seq<Effect>): nat {
    if effects == [] then 0
    else (if effects[0].StartDownloadRequest? then 1 else 0) + Dispatches(effects[1..])
  }

  lemma {:induction false} DispatchesAppend(a: seq<Effect>, b: seq<Effect>)
    ensures Dispatches(a + b) == Dispatches(a) + Dispatches(b)
  {
    if a != [] {
      assert (a + b)[1..] == a[1..] + b;
      DispatchesAppend(a[1..], b);
    } else {
      assert a + b == b;
    }
  }

  lemma {:induction false} NoDispatchesWithoutRequest(effects: seq<Effect>)
    requires forall e | e in effects :: !e.StartDownloadRequest?
    ensures Dispatches(effects) == 0
  {
    if effects != [] {
      assert effects[0] in effects;
      NoDispatchesWithoutRequest(effects[1..]);
    }
  }

  /** The link is the license's publication link and has the publication content type. */
  predicate LinkAccepted(link: Option<Link>) {
    link.Some? && link.value.contentType == PublicationType
  }

  /**
   * The integrity verdict on `file` for a link whose expected digest is
   * `expected`: success when there is no expected digest; otherwise the
   * first failing status of hashing and hex encoding, and then an exact,
   * case-sensitive comparison of the hex digest.
   */
  function HashVerdict(expected: string, file: FileHandle,
                       calculateFileHash: HashFunction, convertRawToHex: HexFunction): (status: Status)
    ensures IsSuccess(status) ==> status == Code(ErrorCommonSuccess)
    ensures IsSuccess(status) <==>
      || expected == []
      || (&& IsSuccess(calculateFileHash(file).0)
          && IsSuccess(convertRawToHex(calculateFileHash(file).1).0)
          && convertRawToHex(calculateFileHash(file).1).1 == expected)
    ensures expected != [] && !IsSuccess(calculateFileHash(file).0) ==>
      status == calculateFileHash(file).0
    ensures expected != [] && IsSuccess(calculateFileHash(file).0)
            && !IsSuccess(convertRawToHex(calculateFileHash(file).1).0) ==>
      status == convertRawToHex(calculateFileHash(file).1).0
    ensures expected != [] && IsSuccess(calculateFileHash(file).0)
            && IsSuccess(convertRawToHex(calculateFileHash(file).1).0) ==>
      (status == Code(ErrorAcquisitionPublicationCorrupted) <==> convertRawToHex(calculateFileHash(file).1).1 != expected)
  {
    if expected == [] then Code(ErrorCommonSuccess)
    else
      var (hashStatus, rawHash) := calculateFileHash(file);
      if !IsSuccess(hashStatus) then hashStatus
      else
        var (hexStatus, hexHash) := convertRawToHex(rawHash);
        if !IsSuccess(hexStatus) then hexStatus
        else if hexHash != expected then Code(ErrorAcquisitionPublicationCorrupted)
        else Code(ErrorCommonSuccess)
  }

  /** The crypto calls the integrity check makes, in order. */
  function HashEffects(expected: string, file: FileHandle, calculateFileHash: HashFunction): (effects: seq<Effect>)
    ensures expected == [] <==> effects == []
    ensures effects != [] ==> effects[0] == CalculateFileHash(file)
    ensures |effects| <= 2
    ensures |effects| == 2 <==> expected != [] && IsSuccess(calculateFileHash(file).0)
    ensures |effects| == 2 ==> effects[1] == ConvertRawToHex(calculateFileHash(file).1)
    ensures forall e | e in effects :: !e.StartDownloadRequest?
  {
    if expected == [] then []
    else if !IsSuccess(calculateFileHash(file).0) then [CalculateFileHash(file)]
    else [CalculateFileHash(file), ConvertRawToHex(calculateFileHash(file).1)]
  }

  // ---------------------------------------------------------------------
  // Observer notifications
  // ---------------------------------------------------------------------

  /** The observer handed to Start, by identity. */
  datatype Callback = Callback(id: nat)

  /** What the download request reports (the progress amount is not modelled). */
  datatype RequestEvent = RequestStarted | RequestProgressed | RequestCanceled | RequestEnded(result: Status)

  /** What the observer receives. */
  datatype Notification =
    | AcquisitionStarted(callback: Callback)
    | AcquisitionProgressed(callback: Callback)
    | AcquisitionCanceled(callback: Callback)
    | AcquisitionEnded(callback: Callback, result: Status)

  /** The notification `n` reports request event `event`, with the same result for an ended event. */
  predicate Reports(n: Notification, event: RequestEvent) {
    match event
    case RequestStarted => n.AcquisitionStarted?
    case RequestProgressed => n.AcquisitionProgressed?
    case RequestCanceled => n.AcquisitionCanceled?
    case RequestEnded(result) => n.AcquisitionEnded? && n.result == result
  }

  /** The notifications one request event produces: one, to the observer, when one is set; none otherwise. */
  function Forwarded(callback: Option<Callback>, event: RequestEvent): (out: seq<Notification>)
    ensures |out| <= 1
    ensures out != [] <==> callback.Some?
    ensures out != [] ==> out[0].callback == callback.value && Reports(out[0], event)
  {
    if callback.None? then []
    else
      match event
      case RequestStarted => [AcquisitionStarted(callback.value)]
      case RequestProgressed => [AcquisitionProgressed(callback.value)]
      case RequestCanceled => [AcquisitionCanceled(callback.value)]
      case RequestEnded(result) => [AcquisitionEnded(callback.value, result)]
  }

  /** An ended event reaches the observer with its result unchanged. */
  lemma EndedPassesResultThrough(callback: Callback, result: Status)
    ensures Forwarded(Some(callback), RequestEnded(result)) == [AcquisitionEnded(callback, result)]
  {
    assert Reports(Forwarded(Some(callback), RequestEnded(result))[0], RequestEnded(result));
  }

  // ---------------------------------------------------------------------
  // The acquisition
  // ---------------------------------------------------------------------

  /** A download job: one source URL bound to one destination file, with a cancel flag. */
  class DownloadRequest {
    const url: string
    const file: FileHandle
    var canceled: bool

    constructor (url: string, file: FileHandle)
      ensures this.url == url && this.file == file && !canceled
    {
      this.url := url;
      this.file := file;
      canceled := false;
    }

    method SetCanceled(value: bool)
      modifies this
      ensures canceled == value
    {
      canceled := value;
    }
  }

  /**
   * One acquisition of one license's publication. `publicationLink` is the
   * license's publication link, if it has one; `getFile`, `calculateFileHash`
   * and `convertRawToHex` are the file-system and crypto providers' answers.
   */
  class Acquisition {
    const publicationLink: Option<Link>
    const publicationPath: string
    const getFile: string -> Option<FileHandle>
    const calculateFileHash: HashFunction
    const convertRawToHex: HexFunction

    var callback: Option<Callback>
    var file: Option<FileHandle>
    var request: DownloadRequest?
    ghost var effects: seq<Effect>
    ghost var notified: seq<Notification>

    constructor (publicationLink: Option<Link>, publicationPath: string, getFile: string -> Option<FileHandle>,
                 calculateFileHash: HashFunction, convertRawToHex: HexFunction)
      ensures this.publicationLink == publicationLink && this.publicationPath == publicationPath
      ensures this.getFile == getFile
      ensures this.calculateFileHash == calculateFileHash && this.convertRawToHex == convertRawToHex
      ensures callback == None && file == None && request == null
      ensures effects == [] && notified == []
    {
      this.publicationLink := publicationLink;
      this.publicationPath := publicationPath;
      this.getFile := getFile;
      this.calculateFileHash := calculateFileHash;
      this.convertRawToHex := convertRawToHex;
      callback := None;
      file := None;
      request := null;
      effects := [];
      notified := [];
    }

    /**
     * Validates the publication link, allocates the destination file,
     * dispatches the download and returns the integrity verdict. Each check
     * fails before any collaborator call the later steps would make.
     */
    method Start(observer: Option<Callback>) returns (status: Status)
      modifies this
      ensures callback == observer
      ensures notified == old(notified)
      ensures publicationLink.None? ==>
        && status == Code(ErrorAcquisitionNoAcquisitionLink)
        && effects == old(effects) && file == old(file) && request == old(request)
      ensures publicationLink.Some? && publicationLink.value.contentType != PublicationType ==>
        && status == Code(ErrorAcquisitionPublicationWrongType)
        && effects == old(effects) && file == old(file) && request == old(request)
      ensures LinkAccepted(publicationLink) ==> file == getFile(publicationPath)
      ensures LinkAccepted(publicationLink) && file.None? ==>
        && status == Code(ErrorAcquisitionInvalidFilePath)
        && effects == old(effects) + [GetFile(publicationPath)]
        && request == old(request)
      ensures LinkAccepted(publicationLink) && file.Some? ==>
        && request != null && fresh(request)
        && request.url == publicationLink.value.href && request.file == file.value && !request.canceled
        && effects == old(effects) + [GetFile(publicationPath), StartDownloadRequest(publicationLink.value.href, file.value)]
                      + HashEffects(publicationLink.value.hash, file.value, calculateFileHash)
        && status == HashVerdict(publicationLink.value.hash, file.value, calculateFileHash, convertRawToHex)
      ensures Dispatches(effects) ==
        Dispatches(old(effects)) + if LinkAccepted(publicationLink) && getFile(publicationPath).Some? then 1 else 0
    {
      callback := observer;
      if publicationLink.None? {
        return Code(ErrorAcquisitionNoAcquisitionLink);
      }
      var link := publicationLink.value;
      if link.contentType != PublicationType {
        return Code(ErrorAcquisitionPublicationWrongType);
      }
      file := getFile(publicationPath);
      effects := effects + [GetFile(publicationPath)];
      DispatchesAppend(old(effects), [GetFile(publicationPath)]);
      if file.None? {
        return Code(ErrorAcquisitionInvalidFilePath);
      }
      request := new DownloadRequest(link.href, file.value);
      effects := effects + [StartDownloadRequest(link.href, file.value)];
      DispatchesAppend(old(effects) + [GetFile(publicationPath)], [StartDownloadRequest(link.href, file.value)]);
      ghost var dispatched := effects;
      status := CheckPublicationHash(link);
      DispatchesAppend(dispatched, HashEffects(link.hash, file.value, calculateFileHash));
      NoDispatchesWithoutRequest(HashEffects(link.hash, file.value, calculateFileHash));
    }

    /** Checks the downloaded file against the link's expected digest. */
    method CheckPublicationHash(link: Link) returns (status: Status)
      requires file.Some?
      modifies this`effects
      ensures status == HashVerdict(link.hash, file.value, calculateFileHash, convertRawToHex)
      ensures effects == old(effects) + HashEffects(link.hash, file.value, calculateFileHash)
    {
      if link.hash != [] {
        effects := effects + [CalculateFileHash(file.value)];
        var (hashStatus, rawHash) := calculateFileHash(file.value);
        if !IsSuccess(hashStatus) {
          return hashStatus;
        }
        effects := effects + [ConvertRawToHex(rawHash)];
        var (hexStatus, hexHash) := convertRawToHex(rawHash);
        if !IsSuccess(hexStatus) {
          return hexStatus;
        }
        if hexHash != link.hash {
          return Code(ErrorAcquisitionPublicationCorrupted);
        }
      }
      return Code(ErrorCommonSuccess);
    }

    /** Asks the dispatched download to stop; the outcome arrives as a canceled event. */
    method Cancel()
      requires request != null
      modifies request
      ensures request.canceled
    {
      request.SetCanceled(true);
    }

    method OnRequestStarted()
      modifies this`notified
      ensures notified == old(notified) + Forwarded(callback, RequestStarted)
    {
      if callback.Some? {
        notified := notified + [AcquisitionStarted(callback.value)];
      }
    }

    /** Forwards a progress event; the reported amount is not modelled. */
    method OnRequestProgressed()
      modifies this`notified
      ensures notified == old(notified) + Forwarded(callback, RequestProgressed)
    {
      if callback.Some? {
        notified := notified + [AcquisitionProgressed(callback.value)];
      }
    }

    method OnRequestCanceled()
      modifies this`notified
      ensures notified == old(notified) + Forwarded(callback, RequestCanceled)
    {
      if callback.Some? {
        notified := notified + [AcquisitionCanceled(callback.value)];
      }
    }

    method OnRequestEnded(result: Status)
      modifies this`notified
      ensures notified == old(notified) + Forwarded(callback, RequestEnded(result))
    {
      if callback.Some? {
        notified := notified + [AcquisitionEnded(callback.value, result)];
      }
    }
  }
}
