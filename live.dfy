/**
 * `LiveService`: the registry of live-view sessions, keyed by the text of
 * the browser token, which switches the pool's remote-control flag on and
 * off; the per-entry page cache; the byte layout of one frame of the
 * `multipart/x-mixed-replace` video stream; and the reply chosen for each
 * message on the control WebSocket.
 */
module Live {
  import opened Wrappers
  import opened Text
  import opened Tokens
  import opened Fingerprint
  import opened Driver
  import SessionPool
  import Engine

  /** `LiveSessionEntry`: the token's text, the headless flag, the cached page and the creation second. */
  class LiveSessionEntry {
    const browserToken: string
    const headless: bool
    var page: Page?
    const ts: int

    constructor (browserToken: string, headless: bool, ts: int)
      ensures this.browserToken == browserToken && this.headless == headless && this.ts == ts && page == null
    {
      this.browserToken := browserToken;
      this.headless := headless;
      this.ts := ts;
      page := null;
    }
  }

  /** Why `get_page_for_entry` raises: the entry's token text is not a UUID, or the pool call failed. */
  datatype LiveError = BadToken | PoolFailed(error: SessionPool.PoolError)

  class LiveService {
    /** `live_sessions`, keyed by `str(browser_token)`. */
    var liveSessions: map<string, LiveSessionEntry>
    /** The default session pool. */
    const pool: SessionPool.PlaywrightSessionPool

    constructor (pool: SessionPool.PlaywrightSessionPool)
      ensures liveSessions == map[] && this.pool == pool
    {
      liveSessions := map[];
      this.pool := pool;
    }

    /** `get_live_entry`. */
    function GetLiveEntry(liveId: string): Option<LiveSessionEntry>
      reads this`liveSessions
    {
      if liveId in liveSessions then Some(liveSessions[liveId]) else None
    }

    /**
     * `create_live_session(token, headless)` at second `now`: a new entry
     * with no page replaces whatever was stored under `str(token)`, and then
     * the pool's remote control is started for the token. That call waits
     * on the pool lock, so when the lock is held (`served` false) the entry
     * is stored but the pool is not touched. The entry's text parses back to
     * the token.
     */
    method CreateLiveSession(t: Token, headless: bool, now: int) returns (liveId: string, served: bool)
      requires pool.Valid()
      modifies this`liveSessions, pool`sessions, pool`view
      modifies (if t in pool.sessions then {pool.sessions[t].engine} else {})`isRemoteControlActive
      modifies (if t in pool.sessions then {pool.sessions[t].engine} else {})`lastActivityTimestamp
      ensures pool.Valid() && pool.launches == old(pool.launches) && pool.removals == old(pool.removals)
      ensures liveId == TokenString(t) && GetLiveEntry(liveId).Some?
      ensures liveSessions == old(liveSessions)[liveId := liveSessions[liveId]]
      ensures fresh(liveSessions[liveId]) && liveSessions[liveId].page == null
      ensures liveSessions[liveId].browserToken == liveId && liveSessions[liveId].headless == headless
      ensures liveSessions[liveId].ts == now
      ensures ParseToken(liveSessions[liveId].browserToken) == Some(t)
      ensures served == !old(pool.locked)
      ensures !served || t !in old(pool.sessions) ==> pool.sessions == old(pool.sessions) && pool.view == old(pool.view)
      ensures served && t in old(pool.sessions) ==>
                && pool.sessions == old(pool.sessions)[t := old(pool.sessions)[t].(lastUsed := now)]
                && pool.view == old(pool.view)[t := SessionPool.Snapshot(old(pool.view)[t].createdAt, now, true)]
                && pool.sessions[t].engine.lastActivityTimestamp == now
    {
      liveId := TokenString(t);
      var entry := new LiveSessionEntry(liveId, headless, now);
      liveSessions := liveSessions[liveId := entry];
      ParseTokenString(t);
      assert pool.sessions == old(pool.sessions) && pool.Engines() == old(pool.Engines()) && pool.Contexts() == old(pool.Contexts());
      served := pool.SetRemoteControl(t, true, now);
    }

    /**
     * `stop_live_session(token)`: when an entry is stored under
     * `str(token)` it is removed, its page reference dropped (the page is
     * not closed), remote control stopped in the pool, and the answer is
     * True; otherwise the answer is False and nothing changes. None means
     * the call waits on a held pool lock, after the entry was removed.
     */
    method StopLiveSession(t: Token, now: int) returns (r: Option<bool>)
      requires pool.Valid()
      modifies this`liveSessions, (if TokenString(t) in liveSessions then {liveSessions[TokenString(t)]} else {})`page
      modifies pool`sessions, pool`view
      modifies (if t in pool.sessions then {pool.sessions[t].engine} else {})`isRemoteControlActive
      modifies (if t in pool.sessions then {pool.sessions[t].engine} else {})`lastActivityTimestamp
      ensures pool.Valid() && pool.launches == old(pool.launches) && pool.removals == old(pool.removals)
      ensures liveSessions == old(liveSessions) - {TokenString(t)}
      ensures TokenString(t) !in old(liveSessions) ==>
                r == Some(false) && pool.sessions == old(pool.sessions) && pool.view == old(pool.view)
      ensures TokenString(t) in old(liveSessions) ==>
                && old(liveSessions)[TokenString(t)].page == null
                && r == (if old(pool.locked) then None else Some(true))
      ensures TokenString(t) in old(liveSessions) && !old(pool.locked) && t in old(pool.sessions) ==>
                && pool.sessions == old(pool.sessions)[t := old(pool.sessions)[t].(lastUsed := now)]
                && pool.view == old(pool.view)[t := SessionPool.Snapshot(old(pool.view)[t].createdAt, now, false)]
                && pool.sessions[t].engine.lastActivityTimestamp == now
      ensures !(TokenString(t) in old(liveSessions) && !old(pool.locked) && t in old(pool.sessions)) ==>
                pool.sessions == old(pool.sessions) && pool.view == old(pool.view)
    {
      var liveId := TokenString(t);
      if liveId !in liveSessions {
        return Some(false);
      }
      var existed := liveSessions[liveId];
      liveSessions := liveSessions - {liveId};
      existed.page := null;
      var served := pool.SetRemoteControl(t, false, now);
      if !served {
        return None;
      }
      return Some(true);
    }

    /** The pool engine of the session whose token text is `s`, as a frame. */
    function PoolEngine(s: string): set<Engine.UndetectedPlaywright>
      reads pool`sessions
    {
      var t := ParseToken(s);
      if t.Some? && t.value in pool.sessions then {pool.sessions[t.value].engine} else {}
    }

    /** The pool context of the session whose token text is `s`, as a frame. */
    function PoolContext(s: string): set<BrowserContext>
      reads pool`sessions
    {
      var t := ParseToken(s);
      if t.Some? && t.value in pool.sessions then {pool.sessions[t.value].context} else {}
    }

    /**
     * `get_page_for_entry(entry)`: a cached page that does not report
     * closed is returned as it is. Otherwise the entry's token text is
     * parsed (a malformed one raises), a new page is taken from the pool
     * and cached in the entry; a pool failure leaves the cache as it was.
     * The remaining parameters are the pool's and the driver's abstract
     * outcomes, as in `SessionPool.PlaywrightSessionPool.GetPage`.
     */
    method GetPageForEntry(entry: LiveSessionEntry, now: int, profile: Option<StoredProfile>, isLinux: bool,
                           driverFails: bool, pageCloseFails: bool, pageMethods: set<string>)
      returns (r: Result<Page, LiveError>)
      requires pool.Valid()
      modifies entry`page, pool`sessions, pool`view, pool`launches, pool`locked
      modifies PoolEngine(entry.browserToken)`lastActivityTimestamp, PoolContext(entry.browserToken)`pages
      ensures pool.Valid() && pool.removals == old(pool.removals) && pool.locked == old(pool.locked)
      ensures old(entry.page != null && !entry.page.IsClosed()) ==>
                && r == Success(old(entry.page)) && entry.page == old(entry.page)
                && pool.sessions == old(pool.sessions) && pool.view == old(pool.view) && pool.launches == old(pool.launches)
                && unchanged(PoolEngine(entry.browserToken)`lastActivityTimestamp, PoolContext(entry.browserToken))
      ensures !old(entry.page != null && !entry.page.IsClosed()) && ParseToken(entry.browserToken).None? ==>
                && r == Failure(BadToken) && entry.page == old(entry.page)
                && pool.sessions == old(pool.sessions) && pool.view == old(pool.view) && pool.launches == old(pool.launches)
      ensures !old(entry.page != null && !entry.page.IsClosed()) && ParseToken(entry.browserToken).Some? ==>
                var t := ParseToken(entry.browserToken).value;
                && (r.Success? <==> !old(pool.locked) && (t in old(pool.sessions) || SessionPool.LaunchSucceeds(profile, driverFails)))
                && (r.Failure? ==>
                      && r.error.PoolFailed? && entry.page == old(entry.page)
                      && pool.sessions == old(pool.sessions) && pool.view == old(pool.view) && pool.launches == old(pool.launches))
                && (r.Failure? && t in old(pool.sessions) ==>
                      unchanged(old(pool.sessions)[t].engine, old(pool.sessions)[t].context))
                && (r.Success? && t in old(pool.sessions) ==>
                      && pool.sessions == old(pool.sessions)[t := old(pool.sessions)[t].(lastUsed := now)]
                      && pool.view == old(pool.view)[t := old(pool.view)[t].(lastUsed := now)]
                      && pool.launches == old(pool.launches)
                      && pool.sessions[t].context.pages == old(pool.sessions[t].context.pages) + [r.value])
                && (r.Success? && t !in old(pool.sessions) ==>
                      && t in pool.sessions && pool.sessions == old(pool.sessions)[t := pool.sessions[t]]
                      && pool.view == old(pool.view)[t := SessionPool.Snapshot(now, now, false)]
                      && pool.launches == old(pool.launches) + multiset{t}
                      && fresh(pool.sessions[t].engine) && fresh(pool.sessions[t].context)
                      && pool.sessions[t].context.pages == [r.value])
                && (r.Success? ==>
                      && entry.page == r.value && fresh(r.value) && !r.value.closed && r.value.methods == pageMethods
                      && t in pool.sessions && r.value in pool.sessions[t].context.pages
                      && pool.sessions[t].engine.lastActivityTimestamp == now && !pool.sessions[t].context.closed)
    {
      var page := entry.page;
      if page != null && !page.IsClosed() {
        return Success(page);
      }
      var parsed := ParseToken(entry.browserToken);
      if parsed.None? {
        return Failure(BadToken);
      }
      var t := parsed.value;
      var got := pool.GetPage(t, entry.headless, now, profile, isLinux, driverFails, pageCloseFails, pageMethods);
      if got.Failure? {
        return Failure(PoolFailed(got.error));
      }
      entry.page := got.value;
      r := Success(got.value);
    }
  }

  // ---- Frames of the video stream ----

  type Byte = b: int | 0 <= b < 256

  /**
   * `s.encode('ascii')`, which the stream applies only to ASCII text (the
   * fixed header and decimal digits); a code point past one byte is here
   * reduced rather than rejected.
   */
  function Ascii(s: string): (b: seq<Byte>)
    ensures |b| == |s| && forall i :: 0 <= i < |s| ==> b[i] == (s[i] as int) % 256
  {
    seq(|s|, i requires 0 <= i < |s| => (s[i] as int) % 256)
  }

  const FRAME_HEAD: string := "--frame\r\nContent-Type: image/jpeg\r\nContent-Length: "
  const CRLF: seq<Byte> := [13, 10]

  predicate IsDigitByte(x: Byte) {
    48 <= x <= 57
  }

  /** `str(n).encode('ascii')`. */
  function DecimalBytes(n: nat): (b: seq<Byte>)
    ensures |b| >= 1 && forall i :: 0 <= i < |b| ==> IsDigitByte(b[i])
  {
    var s := NatToDecimal(n);
    assert forall i :: 0 <= i < |s| ==> IsDigit(s[i]);
    Ascii(s)
  }

  /** The bytes every frame starts with: the boundary line and the headers up to the length. */
  const HEAD: seq<Byte> := Ascii(FRAME_HEAD)

  /**
   * One part of a stream whose parts start with `head`: the head, the
   * decimal length of the image, a blank line, the image and a closing CRLF.
   */
  function Frame(head: seq<Byte>, img: seq<Byte>): (b: seq<Byte>)
    ensures |b| > |head| + |img| + 6 && b[..|head|] == head && b[|b| - 2..] == CRLF
  {
    head + (DecimalBytes(|img|) + (CRLF + CRLF + img + CRLF))
  }

  /**
   * One frame of the video stream: the `--frame` boundary line, the
   * `Content-Type: image/jpeg` and `Content-Length` lines, a blank line,
   * the JPEG bytes and a closing CRLF. The closing CRLF of one frame and the
   * boundary line of the next form the delimiter of section 5.1.1 of RFC 2046.
   */
  function VideoFrame(img: seq<Byte>): (b: seq<Byte>)
    ensures |b| > |HEAD| + |img| + 6 && b[..|HEAD|] == HEAD && b[|b| - 2..] == CRLF
  {
    Frame(HEAD, img)
  }

  /** What a stream yields for the images `imgs`, in order. */
  function Frames(head: seq<Byte>, imgs: seq<seq<Byte>>): seq<Byte> {
    if imgs == [] then [] else Frame(head, imgs[0]) + Frames(head, imgs[1..])
  }

  /** The length of the run of decimal digits `b` starts with. */
  function DigitRun(b: seq<Byte>): (k: nat)
    ensures k <= |b| && (forall i :: 0 <= i < k ==> IsDigitByte(b[i])) && (k < |b| ==> !IsDigitByte(b[k]))
  {
    if b == [] || !IsDigitByte(b[0]) then 0 else 1 + DigitRun(b[1..])
  }

  /** Decimal-digit bytes as text. */
  function DigitText(b: seq<Byte>): (s: string)
    requires forall i :: 0 <= i < |b| ==> IsDigitByte(b[i])
    ensures |s| == |b| && forall i :: 0 <= i < |b| ==> s[i] as int == b[i]
  {
    seq(|b|, i requires 0 <= i < |b| => b[i] as char)
  }

  /**
   * A reader for one frame: the fixed head, a decimal length, a blank line,
   * that many image bytes and a CRLF, giving the image and what follows.
   */
  function ReadFrame(head: seq<Byte>, b: seq<Byte>): (r: Option<(seq<Byte>, seq<Byte>)>)
    ensures r.Some? ==> |r.value.1| < |b|
  {
    if |b| < |head| || b[..|head|] != head then None else ReadLength(b[|head|..])
  }

  /** The part of `ReadFrame` after the head: the length, then the image. */
  function ReadLength(b: seq<Byte>): (r: Option<(seq<Byte>, seq<Byte>)>)
    ensures r.Some? ==> |r.value.1| < |b|
  {
    var k := DigitRun(b);
    if k == 0 then None
    else
      var digits := DigitText(b[..k]);
      assert AllDigits(digits) by {
        assert forall i :: 0 <= i < k ==> 48 <= digits[i] as int <= 57;
      }
      ReadImage(DecimalValue(digits), b[k..])
  }

  /** The part of `ReadFrame` after the length: a blank line, `n` image bytes and a CRLF. */
  function ReadImage(n: nat, b: seq<Byte>): (r: Option<(seq<Byte>, seq<Byte>)>)
    ensures r.Some? ==> |r.value.1| < |b|
  {
    if |b| < n + 6 || b[..4] != CRLF + CRLF || b[n + 4..n + 6] != CRLF then None
    else Some((b[4..n + 4], b[n + 6..]))
  }

  /** A reader for a whole stream, frame after frame. */
  function ReadFrames(head: seq<Byte>, b: seq<Byte>): Option<seq<seq<Byte>>>
    decreases |b|
  {
    if b == [] then Some([])
    else match ReadFrame(head, b)
      case None => None
      case Some((img, rest)) =>
        match ReadFrames(head, rest)
        case None => None
        case Some(imgs) => Some([img] + imgs)
  }

  /** A frame followed by a readable stream makes a readable stream. */
  lemma ReadFramesCons(head: seq<Byte>, b: seq<Byte>, img: seq<Byte>, rest: seq<Byte>, imgs: seq<seq<Byte>>)
    requires ReadFrame(head, b) == Some((img, rest)) && ReadFrames(head, rest) == Some(imgs)
    ensures ReadFrames(head, b) == Some([img] + imgs)
  {
    assert b != [];
  }

  /** The digits of the length are followed by CR, which ends the run. */
  lemma {:induction false} DigitRunEnds(d: seq<Byte>, tail: seq<Byte>)
    requires forall i :: 0 <= i < |d| ==> IsDigitByte(d[i])
    requires tail != [] && tail[0] == 13
    ensures DigitRun(d + tail) == |d|
  {
    if d != [] {
      assert (d + tail)[1..] == d[1..] + tail;
      DigitRunEnds(d[1..], tail);
    }
  }

  lemma ReadImageOf(img: seq<Byte>, after: seq<Byte>)
    ensures ReadImage(|img|, CRLF + CRLF + img + CRLF + after) == Some((img, after))
  {
    var b := CRLF + CRLF + img + CRLF + after;
    assert b[..4] == CRLF + CRLF;
    assert b[|img| + 4..|img| + 6] == CRLF;
    assert b[4..|img| + 4] == img;
    assert b[|img| + 6..] == after;
  }

  lemma ReadLengthOf(img: seq<Byte>, after: seq<Byte>)
    ensures ReadLength(DecimalBytes(|img|) + (CRLF + CRLF + img + CRLF + after)) == Some((img, after))
  {
    var d := DecimalBytes(|img|);
    var tail := CRLF + CRLF + img + CRLF + after;
    var b := d + tail;
    DigitRunEnds(d, tail);
    assert b[..|d|] == d && b[|d|..] == tail;
    DigitTextAscii(NatToDecimal(|img|));
    DecimalRoundTrip(|img|);
    ReadImageOf(img, after);
  }

  /** Decimal digits read back from their bytes. */
  lemma DigitTextAscii(s: string)
    requires AllDigits(s)
    ensures forall i :: 0 <= i < |s| ==> IsDigitByte(Ascii(s)[i])
    ensures DigitText(Ascii(s)) == s
  {
    var b := Ascii(s);
    assert forall i :: 0 <= i < |s| ==> b[i] == s[i] as int;
  }

  /** A frame reads back as its image, whatever bytes follow it. */
  lemma FrameRoundTrip(head: seq<Byte>, img: seq<Byte>, after: seq<Byte>)
    ensures ReadFrame(head, Frame(head, img) + after) == Some((img, after))
  {
    var rest := DecimalBytes(|img|) + (CRLF + CRLF + img + CRLF + after);
    assert Frame(head, img) + after == head + rest;
    assert (head + rest)[..|head|] == head && (head + rest)[|head|..] == rest;
    ReadLengthOf(img, after);
  }

  /**
   * The stream reads back as the screenshots it was made from: each frame
   * says its own length, so image bytes that look like a boundary do no
   * harm.
   */
  lemma {:induction false} FramesRoundTrip(head: seq<Byte>, imgs: seq<seq<Byte>>)
    ensures ReadFrames(head, Frames(head, imgs)) == Some(imgs)
    decreases |imgs|
  {
    if imgs != [] {
      var rest := Frames(head, imgs[1..]);
      var b := Frame(head, imgs[0]) + rest;
      assert Frames(head, imgs) == b;
      FrameRoundTrip(head, imgs[0], rest);
      FramesRoundTrip(head, imgs[1..]);
      ReadFramesCons(head, b, imgs[0], rest, imgs[1..]);
      assert [imgs[0]] + imgs[1..] == imgs;
    }
  }

  /** The video stream, frame after frame, reads back as the screenshots it was made from. */
  lemma VideoStreamRoundTrip(imgs: seq<seq<Byte>>)
    ensures ReadFrames(HEAD, Frames(HEAD, imgs)) == Some(imgs)
    ensures forall k :: 0 <= k < |imgs| ==> ReadFrame(HEAD, VideoFrame(imgs[k])) == Some((imgs[k], []))
  {
    FramesRoundTrip(HEAD, imgs);
    forall k | 0 <= k < |imgs|
      ensures ReadFrame(HEAD, VideoFrame(imgs[k])) == Some((imgs[k], []))
    {
      FrameRoundTrip(HEAD, imgs[k], []);
      assert VideoFrame(imgs[k]) + [] == VideoFrame(imgs[k]);
    }
  }

  // ---- The control WebSocket ----

  /** A decoded JSON value (floats as reals). */
  datatype Json =
    | JNull
    | JBool(b: bool)
    | JInt(i: int)
    | JFloat(f: real)
    | JString(s: string)
    | JArray(items: seq<Json>)
    | JObject(fields: map<string, Json>)

  /** `json.loads(message)`: a parse failure, or the decoded value. */
  datatype Message = Unparseable | Parsed(data: Json)

  /** Python truthiness of a decoded value. */
  predicate Truthy(j: Json) {
    match j
    case JNull => false
    case JBool(b) => b
    case JInt(i) => i != 0
    case JFloat(f) => f != 0.0
    case JString(s) => s != ""
    case JArray(items) => items != []
    case JObject(fields) => fields != map[]
  }

  /** `dict.get(key, default)`. */
  function Get(fields: map<string, Json>, key: string, default: Json): Json {
    if key in fields then fields[key] else default
  }

  /** The Python type name of a decoded value, as an `AttributeError` message names it. */
  function TypeName(j: Json): string {
    match j
    case JNull => "NoneType"
    case JBool(_) => "bool"
    case JInt(_) => "int"
    case JFloat(_) => "float"
    case JString(_) => "str"
    case JArray(_) => "list"
    case JObject(_) => "dict"
  }

  /** The result of running the code: a JSON-friendly value, or any other object with its `str()`. */
  datatype PyValue = PyNone | PyBool(b: bool) | PyInt(i: int) | PyFloat(f: real) | PyStr(s: string) | PyObject(text: string)

  /** A reply's payload: a text, the confirmation of a navigation to a url, or an evaluation result. */
  datatype Payload = Plain(s: string) | NavigatedTo(url: Json) | Value(v: PyValue)
  datatype Reply = Reply(kind: string, payload: Payload)

  /** What the handler asks of the page: nothing, `page.evaluate(code)`, `eval(code)`, or `page.goto(url)`. */
  datatype Action = NoAction | Evaluate(code: string) | EvalPython(code: string) | Goto(url: Json)

  /** The replies sent, the page action taken, and whether an exception left the handler. */
  datatype Handling = Handling(replies: seq<Reply>, action: Action, escaped: bool)

  predicate IsSpace(c: char) {
    c == ' ' || c == '\t' || c == '\n' || c == '\r' || c == '\U{000b}' || c == '\U{000c}'
  }

  /** `s.lstrip()`. */
  function StripLeft(s: string): (r: string)
    ensures |r| <= |s| && (r != [] ==> !IsSpace(r[0]))
    ensures r == s[|s| - |r|..] && forall i :: 0 <= i < |s| - |r| ==> IsSpace(s[i])
  {
    if s != [] && IsSpace(s[0]) then
      var r := StripLeft(s[1..]);
      assert s[1..][|s| - 1 - |r|..] == s[|s| - |r|..];
      assert forall i :: 1 <= i < |s| - |r| ==> s[i] == s[1..][i - 1];
      r
    else s
  }

  /** `s.strip()`. */
  function Strip(s: string): string {
    Reverse(StripLeft(Reverse(StripLeft(s))))
  }

  function Reverse(s: string): (r: string)
    ensures |r| == |s|
  {
    if s == [] then [] else Reverse(s[1..]) + [s[0]]
  }

  predicate StartsWith(s: string, p: string) {
    |p| <= |s| && s[..|p|] == p
  }

  /** Results of these kinds are sent as they are; any other is sent as its `str()`. */
  function Serializable(v: PyValue): (r: PyValue)
    ensures !r.PyObject?
    ensures v.PyObject? ==> r == PyStr(v.text)
    ensures !v.PyObject? ==> r == v
  {
    if v.PyObject? then PyStr(v.text) else v
  }

  /**
   * `handle_websocket_message(websocket, page, message)`. `outcome` is what
   * running the code gives (its value or the text of its exception), and
   * `navError` the text of the exception `page.goto` raises, if it does.
   */
  function HandleWebsocketMessage(msg: Message, outcome: Result<PyValue, string>, navError: Option<string>): (h: Handling)
    ensures |h.replies| <= 1 && (h.escaped <==> h.replies == [])
  {
    match msg
    case Unparseable => Handling([Reply("error", Plain("invalid json"))], NoAction, false)
    case Parsed(data) =>
      if !data.JObject? then
        // `data.get` on a list, string, number, boolean or None raises outside any `try`.
        Handling([], NoAction, true)
      else
        var kind := Get(data.fields, "type", JNull);
        if kind == JString("eval") then
          var code := Get(data.fields, "code", JString(""));
          if !code.JString? then
            Handling([Reply("error", Plain("'" + TypeName(code) + "' object has no attribute 'strip'"))], NoAction, false)
          else
            var action := if StartsWith(Strip(code.s), "await page") then EvalPython(code.s) else Evaluate(code.s);
            match outcome
            case Success(v) => Handling([Reply("eval_result", Value(Serializable(v)))], action, false)
            case Failure(e) => Handling([Reply("error", Plain(e))], action, false)
        else if kind == JString("navigate") then
          var url := Get(data.fields, "url", JString(""));
          if !Truthy(url) then Handling([Reply("error", Plain("URL 不能为空"))], NoAction, false)
          else if navError.None? then Handling([Reply("info", NavigatedTo(url))], Goto(url), false)
          else Handling([Reply("error", Plain(navError.value))], Goto(url), false)
        else Handling([Reply("error", Plain("unknown message type"))], NoAction, false)
  }

  /** A message that fails to parse gets one `error` reply, `invalid json`, and the page is left alone. */
  lemma InvalidJsonReply(outcome: Result<PyValue, string>, navError: Option<string>)
    ensures HandleWebsocketMessage(Unparseable, outcome, navError) ==
              Handling([Reply("error", Plain("invalid json"))], NoAction, false)
  {
  }

  /**
   * Every object message gets exactly one reply; the page is only driven
   * by an `eval` message whose code is text (evaluated as that code) or a
   * `navigate` message with a truthy url (sent to that url); every reply
   * kind is `error` except `eval_result` and `info` for those actions'
   * successes, and an `eval_result` payload is always a plain value.
   */
  lemma ObjectMessageReplies(fields: map<string, Json>, outcome: Result<PyValue, string>, navError: Option<string>)
    ensures var h := HandleWebsocketMessage(Parsed(JObject(fields)), outcome, navError);
            && |h.replies| == 1 && !h.escaped
            && (h.action.Evaluate? || h.action.EvalPython? <==>
                  Get(fields, "type", JNull) == JString("eval") && Get(fields, "code", JString("")).JString?)
            && ((h.action.Evaluate? || h.action.EvalPython?) ==> h.action.code == Get(fields, "code", JString("")).s)
            && (h.action.Goto? <==>
                  Get(fields, "type", JNull) == JString("navigate") && Truthy(Get(fields, "url", JString(""))))
            && (h.action.Goto? ==> h.action.url == Get(fields, "url", JString("")))
            && (h.replies[0].kind == "eval_result" <==> (h.action.Evaluate? || h.action.EvalPython?) && outcome.Success?)
            && (h.replies[0].kind == "info" <==> h.action.Goto? && navError.None?)
            && (h.replies[0].kind in {"error", "eval_result", "info"})
            && (h.replies[0].kind == "eval_result" ==> h.replies[0].payload.Value? && !h.replies[0].payload.v.PyObject?)
  {
  }

  /** A missing or empty url is refused with `URL 不能为空` and nothing is navigated. */
  lemma NavigateNeedsUrl(fields: map<string, Json>, outcome: Result<PyValue, string>, navError: Option<string>)
    requires Get(fields, "type", JNull) == JString("navigate")
    requires "url" !in fields || fields["url"] == JString("")
    ensures HandleWebsocketMessage(Parsed(JObject(fields)), outcome, navError) ==
              Handling([Reply("error", Plain("URL 不能为空"))], NoAction, false)
  {
  }

  /** Code that starts with `await page` after leading blanks goes to `eval`; other code to `page.evaluate`. */
  lemma EvalRouting(fields: map<string, Json>, code: string, outcome: Result<PyValue, string>, navError: Option<string>)
    requires Get(fields, "type", JNull) == JString("eval") && Get(fields, "code", JString("")) == JString(code)
    ensures HandleWebsocketMessage(Parsed(JObject(fields)), outcome, navError).action ==
              if StartsWith(Strip(code), "await page") then EvalPython(code) else Evaluate(code)
  {
  }

  /** As written, a message that is valid JSON but not an object gets no reply at all: the handler raises. */
  lemma NonObjectGetsNoReply(outcome: Result<PyValue, string>, navError: Option<string>)
    ensures HandleWebsocketMessage(Parsed(JArray([])), outcome, navError) == Handling([], NoAction, true)
    ensures HandleWebsocketMessage(Parsed(JString("eval")), outcome, navError).replies == []
  {
  }

  /** The handler as evidently intended: a non-object message is of no known type. */
  function HandleWebsocketMessageFixed(msg: Message, outcome: Result<PyValue, string>, navError: Option<string>): (h: Handling)
  {
    if msg.Parsed? && !msg.data.JObject? then Handling([Reply("error", Plain("unknown message type"))], NoAction, false)
    else HandleWebsocketMessage(msg, outcome, navError)
  }

  /** With the correction every message, whatever it holds, gets exactly one reply and no exception escapes. */
  lemma FixedRepliesOnce(msg: Message, outcome: Result<PyValue, string>, navError: Option<string>)
    ensures var h := HandleWebsocketMessageFixed(msg, outcome, navError);
            |h.replies| == 1 && !h.escaped
    ensures msg.Unparseable? || msg.data.JObject? ==>
              HandleWebsocketMessageFixed(msg, outcome, navError) == HandleWebsocketMessage(msg, outcome, navError)
  {
    if msg.Parsed? && msg.data.JObject? {
      ObjectMessageReplies(msg.data.fields, outcome, navError);
    }
  }
}
