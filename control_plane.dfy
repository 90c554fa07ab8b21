/** The control-plane client: how `checkIn` and `fetchMedia` turn an HTTP
    outcome into a result, how the check-in worker acts on that result, and
    the `.jwt` token file as a single optional string. The transport and
    JSON decoding are inputs: a reply carries its status, its body text and
    the value the JSON decoder produced (None when decoding failed). */
module ControlPlane {
  import opened Text
  import opened Wrappers

  /** One element of GET /api/device/me/media. */
  datatype MediaItem = MediaItem(id: string, url: string, name: string)

  /** What the HTTP client produced: no reply at all (the request could not be
      built or sent), or a reply. */
  datatype Response<T> = Unreachable | Reply(status: int, body: string, decoded: Option<T>)

  datatype Failure =
    | NoMac                             // "mac address not found"
    | Transport                         // request not built or not answered
    | HttpStatus(code: int, body: string)
    | BadJson
    | TokenInvalid                      // 401 on the media fetch

  datatype Result<T> = Ok(value: T) | Err(failure: Failure)

  /** checkIn(serverURL, mac): the token, "" while the device awaits a group,
      or an error. The decoded value is the accessToken field ("" when the
      field is missing). */
  function CheckIn(mac: string, resp: Response<string>): (r: Result<string>)
    ensures mac == "" ==> r == Err(NoMac)
    ensures r.Ok? <==>
      mac != "" && resp.Reply? &&
      (resp.status == 401 || ((resp.status == 200 || resp.status == 201) && resp.decoded.Some?))
    ensures r.Ok? && r.value != "" ==>
      resp.Reply? && (resp.status == 200 || resp.status == 201) && resp.decoded == Some(r.value)
    ensures mac != "" && resp.Reply? && resp.status !in {200, 201, 401} ==>
      r == Err(HttpStatus(resp.status, resp.body))
  {
    if mac == "" then Err(NoMac)
    else match resp
      case Unreachable => Err(Transport)
      case Reply(status, body, decoded) =>
        if status == 401 then Ok("")
        else if status != 200 && status != 201 then Err(HttpStatus(status, body))
        else match decoded
          case None => Err(BadJson)
          case Some(token) => Ok(token)
  }

  /** fetchMedia(serverURL, jwt): the manifest only for a 200 whose body
      decodes; 401 is its own error, every other status an error with the body. */
  function FetchMedia(resp: Response<seq<MediaItem>>): (r: Result<seq<MediaItem>>)
    ensures r.Ok? <==> resp.Reply? && resp.status == 200 && resp.decoded.Some?
    ensures r.Ok? ==> r.value == resp.decoded.value
    ensures resp.Reply? && resp.status == 401 ==> r == Err(TokenInvalid)
    ensures resp.Reply? && resp.status != 200 && resp.status != 401 ==>
      r == Err(HttpStatus(resp.status, resp.body))
  {
    match resp
    case Unreachable => Err(Transport)
    case Reply(status, body, decoded) =>
      if status == 401 then Err(TokenInvalid)
      else if status != 200 then Err(HttpStatus(status, body))
      else match decoded
        case None => Err(BadJson)
        case Some(items) => Ok(items)
  }

  /** What one run of the check-in worker's doCheckIn does with the result. */
  datatype CheckInAction = ReportError(failure: Failure) | SaveToken(token: string) | AwaitGroup

  function DoCheckIn(r: Result<string>): CheckInAction
  {
    match r
    case Err(f) => ReportError(f)
    case Ok(token) => if token != "" then SaveToken(token) else AwaitGroup
  }

  /** The worker saves a token only from a 200/201 whose accessToken is
      non-empty; it reports "awaiting group" for a 401 and also for a
      200/201 whose accessToken is empty; everything else is reported as an
      error and changes nothing. */
  lemma CheckInActions(mac: string, resp: Response<string>)
    ensures var a := DoCheckIn(CheckIn(mac, resp));
      (a.SaveToken? <==>
        mac != "" && resp.Reply? && (resp.status == 200 || resp.status == 201)
        && resp.decoded.Some? && resp.decoded.value != "")
      && (a.SaveToken? ==> a.token == resp.decoded.value)
      && (a == AwaitGroup <==>
        mac != "" && resp.Reply? &&
        (resp.status == 401 || ((resp.status == 200 || resp.status == 201) && resp.decoded == Some(""))))
  {
  }

  /** loadJWT: the trimmed file contents, "" when the file is absent. */
  function LoadJWT(file: Option<string>): string
  {
    match file
    case None => ""
    case Some(text) => TrimSpace(text)
  }

  /** How os.WriteFile ends. It opens the file with O_TRUNC, writes and
      closes: the open can fail and leave the file as it was, or a write or
      close can fail after the open, when the file holds the first `kept`
      runes of the data (all of it for a failed close). */
  datatype WriteOutcome = Written | OpenFailed | WriteFailed(kept: nat)

  /** A file after os.WriteFile(data) ends with `w`, as saveJWT and
      runConcatPlayback call it; an error is reported for every outcome but
      Written. */
  function WriteFile(file: Option<string>, token: string, w: WriteOutcome): (r: Option<string>)
    ensures w.Written? ==> r == Some(token)
    ensures w.OpenFailed? ==> r == file
    ensures w.WriteFailed? ==>
      r.Some? && r.value <= token && |r.value| == if w.kept < |token| then w.kept else |token|
  {
    match w
    case Written => Some(token)
    case OpenFailed => file
    case WriteFailed(k) => Some(token[..if k < |token| then k else |token|])
  }

  /** One doCheckIn against the token file: only SaveToken writes it. */
  function CheckInCycle(file: Option<string>, a: CheckInAction, w: WriteOutcome): Option<string>
  {
    if a.SaveToken? then WriteFile(file, a.token, w) else file
  }

  /** The token file changes only through a check-in answered 200 or 201
      with a non-empty accessToken; a save that succeeds leaves exactly that
      token, one whose open fails leaves the file as it was, and one that
      fails after the open leaves a prefix of the token, possibly empty.
      Errors and "awaiting group" never touch the file. */
  lemma CheckInFile(mac: string, resp: Response<string>, file: Option<string>, w: WriteOutcome)
    ensures var r := CheckInCycle(file, DoCheckIn(CheckIn(mac, resp)), w);
      var saves := mac != "" && resp.Reply? && (resp.status == 200 || resp.status == 201)
         && resp.decoded.Some? && resp.decoded.value != "";
      (!saves ==> r == file)
      && (saves && w.Written? ==> r == Some(resp.decoded.value))
      && (saves && w.OpenFailed? ==> r == file)
      && (saves && w.WriteFailed? ==>
            var token := resp.decoded.value;
            r.Some? && r.value <= token && |r.value| == if w.kept < |token| then w.kept else |token|)
  {
    CheckInActions(mac, resp);
  }

  /** A save that fails before any rune is written empties the file, and
      the sync loop then reads no token at all, even if it had one before. */
  lemma FailedSaveHidesToken(mac: string, resp: Response<string>, file: Option<string>)
    requires DoCheckIn(CheckIn(mac, resp)).SaveToken?
    ensures LoadJWT(CheckInCycle(file, DoCheckIn(CheckIn(mac, resp)), WriteFailed(0))) == ""
  {
  }

  lemma {:induction false} TrimSpaceEmpty(s: string)
    ensures TrimSpace(s) == "" <==> forall i :: 0 <= i < |s| ==> IsSpace(s[i])
  {
    var l := TrimLeftSpace(s);
    if TrimSpace(s) == "" {
      assert l == [];
    } else {
      var r := TrimSpace(s);
      assert !IsSpace(r[0]);
      assert r[0] == l[0] == s[|s| - |l|];
    }
  }

  /** A saved token is seen by the sync loop exactly when it holds a
      non-space rune: a token of blanks reads back as "no token". */
  lemma SavedTokenVisible(file: Option<string>, token: string)
    ensures LoadJWT(WriteFile(file, token, Written)) != "" <==> exists i :: 0 <= i < |token| && !IsSpace(token[i])
  {
    TrimSpaceEmpty(token);
  }

  lemma TrimmedEnds(t: string)
    requires t == [] || (!IsSpace(t[0]) && !IsSpace(t[|t| - 1]))
    ensures TrimSpace(t) == t
  {
    assert TrimLeftSpace(t) == t;
  }

  /** Reading the token back is stable: the loaded token is already trimmed. */
  lemma {:induction false} LoadIsTrimmed(file: Option<string>)
    ensures TrimSpace(LoadJWT(file)) == LoadJWT(file)
  {
    if file.Some? {
      var l0 := TrimLeftSpace(file.value);
      var t := TrimRightSpace(l0);
      if t != [] {
        PrefixHead(t, l0);
      }
      TrimmedEnds(t);
    }
  }

  lemma PrefixHead(t: string, s: string)
    requires t <= s && t != []
    ensures t[0] == s[0]
  {
  }
}
