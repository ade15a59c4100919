/** The action layer's HTTP runtime: how a request is answered (routing, the body
    checks of `POST /execute` in their order, the mock execution verdict) and how
    the answer is written (`json.dumps` with `ensure_ascii=False`, UTF-8, and a
    Content-Length that counts the encoded bytes).

    Reading the socket, decoding the body and the random trace suffix are inputs:
    the request carries its Content-Length as a number, the outcome of decoding and
    parsing the body, and the twelve hex digits of the trace id. */
module ActionLayer {
  import opened Text
  import H = Hierarchy

  // ---------------------------------------------------------------------------
  // JSON values

  /** A JSON value as `json.loads` yields it; numbers are integers here, and an
      object keeps its members in document order, duplicates included. */
  datatype JsonValue =
    | JNull
    | JBool(b: bool)
    | JNum(n: int)
    | JStr(s: string)
    | JArr(items: seq<JsonValue>)
    | JObj(members: seq<(string, JsonValue)>)

  /** `dict.get(key)` on a parsed object: the last member with that key wins. */
  function Lookup(members: seq<(string, JsonValue)>, key: string): (r: Option<JsonValue>)
    ensures r.Some? <==> exists i :: 0 <= i < |members| && members[i].0 == key
    ensures r.Some? ==> exists i :: 0 <= i < |members| && members[i] == (key, r.value)
                                    && forall j :: i < j < |members| ==> members[j].0 != key
  {
    if members == [] then None
    else if members[|members| - 1].0 == key then Some(members[|members| - 1].1)
    else
      var init := members[..|members| - 1];
      var r := Lookup(init, key);
      assert forall i :: 0 <= i < |members| - 1 ==> init[i] == members[i];
      assert r.Some? ==> exists i :: 0 <= i < |members| && members[i] == (key, r.value)
                                  && forall j :: i < j < |members| ==> members[j].0 != key by {
        if r.Some? {
          var i :| 0 <= i < |init| && init[i] == (key, r.value) && forall j :: i < j < |init| ==> init[j].0 != key;
          assert forall j :: i < j < |members| ==> members[j].0 != key by {
            forall j | i < j < |members| ensures members[j].0 != key {
              if j < |init| { assert members[j] == init[j]; }
            }
          }
        }
      }
      r
  }

  datatype Option<+T> = None | Some(value: T)

  /** Python's `str(", ").join(parts)`. */
  function Join(sep: string, parts: seq<string>): string
  {
    if parts == [] then []
    else if |parts| == 1 then parts[0]
    else Join(sep, parts[..|parts| - 1]) + sep + parts[|parts| - 1]
  }

  /** Python's `str()` of a parsed value. Strings inside lists and dicts are shown
      between single quotes without the escapes of `repr`. */
  function PyStr(v: JsonValue): string
  {
    match v
    case JStr(s) => s
    case _ => Repr(v)
  }

  function Repr(v: JsonValue): string
  {
    match v
    case JNull => "None"
    case JBool(b) => if b then "True" else "False"
    case JNum(n) => IntString(n)
    case JStr(s) => "'" + s + "'"
    case JArr(items) => "[" + Join(", ", seq(|items|, i requires 0 <= i < |items| => Repr(items[i]))) + "]"
    case JObj(members) =>
      "{" + Join(", ", seq(|members|, i requires 0 <= i < |members| =>
                            (var m := members[i]; assert m in members; "'" + m.0 + "': " + Repr(m.1)))) + "}"
  }

  /** Only a string can show as blank: every other value's `str()` starts with a
      letter, a digit, a sign or a bracket. */
  lemma ReprNotBlank(v: JsonValue)
    ensures Trim(PyStr(v), IsPySpace) == [] ==> v.JStr?
  {
    if !v.JStr? {
      var r := Repr(v);
      assert !IsPySpace(r[0]) by {
        if v.JNum? && v.n >= 0 {
          assert IsDigit(r[0]);
        }
      }
      TrimEmptyIffBlank(r, IsPySpace);
    }
  }

  // ---------------------------------------------------------------------------
  // Deciding the response

  datatype HttpMethod = Get | Post

  /** The outcome of `json.loads(body.decode("utf-8"))`. */
  datatype ParsedBody = Undecodable | Parsed(value: JsonValue)

  datatype Request = Request(verb: HttpMethod, path: string, contentLength: int, body: ParsedBody)

  datatype Response = Response(status: int, payload: seq<(string, JsonValue)>)

  function Detail(status: int, message: string): Response
  {
    Response(status, [("detail", JStr(message))])
  }

  const Healthz: Response :=
    Response(200, [("status", JStr("ok")), ("layer", JStr("action")), ("transport", JStr("http"))])

  const Capabilities: Response :=
    Response(200, [("agents", JArr([JStr("coding"), JStr("test"), JStr("review")])), ("status", JStr("stub"))])

  const NotFound: Response := Detail(404, "not found")

  /** The verdict of the mock execution of a non-blank command text. */
  function Execution(text: string, hex: string): Response
  {
    if MentionsFailure(text) then
      Response(200, [("status", JStr("failed")),
                     ("summary", JStr("action-layer mock execution failed by command content")),
                     ("agent", JStr("coding")), ("trace_id", JStr("act_" + hex))])
    else
      Response(200, [("status", JStr("success")),
                     ("summary", JStr("action-layer mock execution completed")),
                     ("agent", JStr("coding")), ("trace_id", JStr("act_" + hex))])
  }

  /** `_read_json_body`: the object the body holds, or the error response. */
  function ReadJsonBody(contentLength: int, body: ParsedBody): (r: Result)
    ensures r.Answered? <==> contentLength <= 0 || body.Undecodable? || !body.value.JObj?
    ensures r.Answered? ==> r.response.status == 400
  {
    if contentLength <= 0 then Answered(Detail(400, "empty request body"))
    else if body.Undecodable? then Answered(Detail(400, "invalid json body"))
    else if !body.value.JObj? then Answered(Detail(400, "json body must be an object"))
    else Object(body.value.members)
  }

  datatype Result = Answered(response: Response) | Object(members: seq<(string, JsonValue)>)

  /** `str(payload.get("text", "")).strip()`. */
  function CommandText(members: seq<(string, JsonValue)>): string
  {
    var v := Lookup(members, "text");
    Trim(if v.Some? then PyStr(v.value) else "", IsPySpace)
  }

  /** `do_GET` and `do_POST`: the one response a request gets. */
  function Decide(req: Request, hex: string): (r: Response)
    ensures r.status in {200, 400, 404, 422}
  {
    match req.verb
    case Get =>
      if req.path == "/healthz" then Healthz
      else if req.path == "/capabilities" then Capabilities
      else NotFound
    case Post =>
      if req.path != "/execute" then NotFound
      else
        var read := ReadJsonBody(req.contentLength, req.body);
        if read.Answered? then read.response
        else if CommandText(read.members) == [] then Detail(422, "text must be a non-empty string")
        else Execution(CommandText(read.members), hex)
  }

  /** GET answers by path alone: health, capabilities, or not found. */
  lemma GetRoutes(req: Request, hex: string)
    requires req.verb == Get
    ensures Decide(req, hex) == if req.path == "/healthz" then Healthz
                                else if req.path == "/capabilities" then Capabilities
                                else NotFound
  {
  }

  /** A POST anywhere but `/execute` is not found whatever its body: the body is
      not looked at. */
  lemma PostElsewhereIgnoresBody(req: Request, other: Request, hex: string)
    requires req.verb == Post && other.verb == Post && req.path == other.path
    requires req.path != "/execute"
    ensures Decide(req, hex) == Decide(other, hex) == NotFound
  {
  }

  /** The body checks of `/execute` run in order and the first failing one answers:
      no length, then undecodable or invalid JSON, then not an object, then blank
      text. */
  lemma ExecuteChecksInOrder(req: Request, hex: string)
    requires req.verb == Post && req.path == "/execute"
    ensures req.contentLength <= 0 ==> Decide(req, hex) == Detail(400, "empty request body")
    ensures req.contentLength > 0 && req.body.Undecodable? ==> Decide(req, hex) == Detail(400, "invalid json body")
    ensures req.contentLength > 0 && req.body.Parsed? && !req.body.value.JObj? ==>
              Decide(req, hex) == Detail(400, "json body must be an object")
    ensures req.contentLength > 0 && req.body.Parsed? && req.body.value.JObj? ==>
              (Decide(req, hex).status == 422 <==> CommandText(req.body.value.members) == [])
  {
  }

  /** A missing, `null`-free blank or whitespace-only text is refused with 422; a
      text that is not a string never is. */
  lemma BlankTextRefused(members: seq<(string, JsonValue)>)
    ensures CommandText(members) == [] <==>
              Lookup(members, "text").None?
              || (Lookup(members, "text").value.JStr? && Trim(Lookup(members, "text").value.s, IsPySpace) == [])
  {
    var v := Lookup(members, "text");
    if v.Some? {
      ReprNotBlank(v.value);
    }
  }

  /** The fields of an execution verdict. */
  lemma ExecutionFields(text: string, hex: string)
    ensures var p := Execution(text, hex).payload;
            && Lookup(p, "agent") == Some(JStr("coding"))
            && Lookup(p, "trace_id") == Some(JStr("act_" + hex))
            && Lookup(p, "status") == Some(JStr(if MentionsFailure(text) then "failed" else "success"))
  {
    var p := Execution(text, hex).payload;
    assert "trace_id"[0] != "agent"[0] && "trace_id"[0] != "status"[0];
    assert "summary"[0] != "agent"[0] && "summary"[1] != "status"[1];
    assert p[0].0 == "status" && p[1].0 == "summary" && p[2].0 == "agent" && p[3].0 == "trace_id";
    assert Lookup(p, "status") == Lookup(p[..1], "status") by {
      assert p[..3][..2] == p[..2] && p[..2][..1] == p[..1];
    }
  }

  /** The trace id is an id of the `act` kind: `act_` and the suffix. */
  lemma TraceIdFormat(hex: string)
    requires H.IsHexSuffix(hex)
    ensures "act_" + hex == H.NewId("act", hex) && |H.NewId("act", hex)| == 16
  {
  }

  /** Every executed command is answered 200 by the coding agent, with a trace id
      of `act_` and the twelve hex digits of `uuid4().hex[:12]`, sixteen characters
      in all; the verdict is `failed` exactly when the stripped text mentions a
      failure, and `success` otherwise. */
  lemma ExecutionVerdict(req: Request, hex: string)
    requires req.verb == Post && req.path == "/execute" && req.contentLength > 0
    requires req.body.Parsed? && req.body.value.JObj?
    requires CommandText(req.body.value.members) != []
    requires H.IsHexSuffix(hex)
    ensures var r := Decide(req, hex);
            && r.status == 200
            && Lookup(r.payload, "agent") == Some(JStr("coding"))
            && Lookup(r.payload, "trace_id") == Some(JStr(H.NewId("act", hex)))
            && |H.NewId("act", hex)| == 16
            && (Lookup(r.payload, "status") == Some(JStr("failed")) <==> MentionsFailure(CommandText(req.body.value.members)))
            && (Lookup(r.payload, "status") == Some(JStr("success")) <==> !MentionsFailure(CommandText(req.body.value.members)))
  {
    var text := CommandText(req.body.value.members);
    assert Decide(req, hex) == Execution(text, hex);
    ExecutionFields(text, hex);
    TraceIdFormat(hex);
    assert "failed"[0] != "success"[0];
  }

  /** The action layer's verdict on a command text agrees with the orchestrator's
      content rule on the same text. */
  lemma VerdictMatchesOrchestrator(text: string, hex: string)
    requires Trim(text, IsPySpace) != [] && H.IsHexSuffix(hex)
    ensures var req := Request(Post, "/execute", 1, Parsed(JObj([("text", JStr(text))])));
            Lookup(Decide(req, hex).payload, "status") == Some(JStr("failed")) <==> MentionsFailure(text)
  {
    var members := [("text", JStr(text))];
    var req := Request(Post, "/execute", 1, Parsed(JObj(members)));
    assert Lookup(members, "text") == Some(JStr(text));
    assert CommandText(members) == Trim(text, IsPySpace);
    ExecutionVerdict(req, hex);
    MentionsFailureSurvivesTrim(text);
  }

  // ---------------------------------------------------------------------------
  // Writing the response

  /** The escape `json.dumps` writes for one character of a string when
      `ensure_ascii` is off: the quote, the backslash and control characters. */
  function EscapeChar(c: char): (r: string)
    ensures |r| >= 1
  {
    if c == '"' then "\\\""
    else if c == '\\' then "\\\\"
    else if c == '\n' then "\\n"
    else if c == '\r' then "\\r"
    else if c == '\t' then "\\t"
    else if c as int == 8 then "\\b"
    else if c as int == 12 then "\\f"
    else if c < ' ' then "\\u00" + [HexChar(c as int / 16), HexChar(c as int % 16)]
    else [c]
  }

  function HexChar(d: int): (c: char)
    requires 0 <= d < 16
    ensures IsHexChar(c) && HexValue(c) == d
  {
    if d < 10 then ('0' as int + d) as char else ('a' as int + d - 10) as char
  }

  predicate IsHexChar(c: char)
  {
    '0' <= c <= '9' || 'a' <= c <= 'f' || 'A' <= c <= 'F'
  }

  function HexValue(c: char): int
    requires IsHexChar(c)
  {
    if '0' <= c <= '9' then c as int - '0' as int
    else if 'a' <= c <= 'f' then c as int - 'a' as int + 10
    else c as int - 'A' as int + 10
  }

  function Escape(s: string): string
  {
    if s == [] then [] else EscapeChar(s[0]) + Escape(s[1..])
  }

  /** A JSON string literal. */
  function Quote(s: string): string
  {
    "\"" + Escape(s) + "\""
  }

  /** The character a two-character escape `\\e` stands for. */
  function ShortEscape(e: char): Option<char>
  {
    if e == '"' || e == '\\' || e == '/' then Some(e)
    else if e == 'n' then Some('\n')
    else if e == 'r' then Some('\r')
    else if e == 't' then Some('\t')
    else if e == 'b' then Some(8 as char)
    else if e == 'f' then Some(12 as char)
    else None
  }

  /** The code unit a `\\uXXXX` escape at the head of `t` stands for. */
  function UnicodeEscape(t: string): Option<int>
    requires |t| >= 6
  {
    if IsHexChar(t[2]) && IsHexChar(t[3]) && IsHexChar(t[4]) && IsHexChar(t[5]) then
      Some(HexValue(t[2]) * 4096 + HexValue(t[3]) * 256 + HexValue(t[4]) * 16 + HexValue(t[5]))
    else None
  }

  /** The characters of a JSON string body as a JSON reader sees them: `None` for a
      raw quote or control character, an unknown escape, or a lone surrogate. */
  function Unescape(t: string): Option<string>
    decreases |t|
  {
    if t == [] then Some([])
    else if t[0] == '\\' then
      if |t| < 2 then None
      else if t[1] == 'u' then
        if |t| < 6 then None
        else
          var code := UnicodeEscape(t);
          if code.None? || 0xD800 <= code.value < 0xE000 then None
          else Prepend(code.value as char, Unescape(t[6..]))
      else
        var c := ShortEscape(t[1]);
        if c.None? then None else Prepend(c.value, Unescape(t[2..]))
    else if t[0] == '"' || t[0] < ' ' then None
    else Prepend(t[0], Unescape(t[1..]))
  }

  function Prepend(c: char, rest: Option<string>): Option<string>
  {
    if rest.None? then None else Some([c] + rest.value)
  }

  lemma UnescapeOne(c: char, rest: string)
    ensures Unescape(EscapeChar(c) + rest) == Prepend(c, Unescape(rest))
  {
    var t := EscapeChar(c) + rest;
    if c < ' ' && c !in "\n\r\t" && c as int != 8 && c as int != 12 {
      assert t[6..] == rest;
    } else if EscapeChar(c) == [c] {
      assert t[1..] == rest;
    } else {
      assert t[2..] == rest;
    }
  }

  /** Reading a written string back gives the string: the escapes lose nothing. */
  lemma {:induction false} EscapeRoundTrip(s: string)
    ensures Unescape(Escape(s)) == Some(s)
  {
    if s != [] {
      EscapeRoundTrip(s[1..]);
      UnescapeOne(s[0], Escape(s[1..]));
      assert [s[0]] + s[1..] == s;
    }
  }

  /** `json.dumps(value, ensure_ascii=False)` with its default separators. */
  function Dumps(v: JsonValue): string
  {
    match v
    case JNull => "null"
    case JBool(b) => if b then "true" else "false"
    case JNum(n) => IntString(n)
    case JStr(s) => Quote(s)
    case JArr(items) => "[" + Join(", ", seq(|items|, i requires 0 <= i < |items| => Dumps(items[i]))) + "]"
    case JObj(members) =>
      "{" + Join(", ", seq(|members|, i requires 0 <= i < |members| =>
                            (var m := members[i]; assert m in members; Quote(m.0) + ": " + Dumps(m.1)))) + "}"
  }

  /** The UTF-8 bytes of one character. */
  function EncodeChar(c: char): (r: seq<int>)
    ensures 1 <= |r| <= 4 && forall i :: 0 <= i < |r| ==> 0 <= r[i] < 256
    ensures |r| == 1 <==> c as int < 0x80
  {
    var n := c as int;
    if n < 0x80 then [n]
    else if n < 0x800 then [0xC0 + n / 64, 0x80 + n % 64]
    else if n < 0x10000 then [0xE0 + n / 4096, 0x80 + n / 64 % 64, 0x80 + n % 64]
    else [0xF0 + n / 262144, 0x80 + n / 4096 % 64, 0x80 + n / 64 % 64, 0x80 + n % 64]
  }

  /** `.encode("utf-8")`. */
  function Utf8(s: string): (r: seq<int>)
    ensures forall i :: 0 <= i < |r| ==> 0 <= r[i] < 256
  {
    if s == [] then [] else EncodeChar(s[0]) + Utf8(s[1..])
  }

  /** The byte count is at least the character count, and equals it exactly when
      every character is ASCII. */
  lemma {:induction false} Utf8Length(s: string)
    ensures |Utf8(s)| >= |s|
    ensures |Utf8(s)| == |s| <==> forall i :: 0 <= i < |s| ==> s[i] as int < 0x80
  {
    if s != [] {
      Utf8Length(s[1..]);
      assert forall i :: 0 < i < |s| ==> s[i] == s[1..][i - 1];
    }
  }

  /** `server_version` of the handler. */
  const ServerVersion: string := "WhereCodeActionLayer/0.1"

  /** What `_send_json` writes: the status line, the headers and the body. The
      `Server` and `Date` headers come from `send_response`; the interpreter's
      version string and the formatted current date are parameters. */
  datatype Sent = Sent(status: int, headers: seq<(string, string)>, body: seq<int>)

  function SendJson(r: Response, pythonVersion: string, date: string): (sent: Sent)
    ensures sent.status == r.status && sent.body == Utf8(Dumps(JObj(r.payload)))
    ensures |sent.headers| == 4
    ensures sent.headers[0] == ("Server", ServerVersion + " " + pythonVersion)
    ensures sent.headers[1] == ("Date", date)
    ensures sent.headers[2] == ("Content-Type", "application/json; charset=utf-8")
    ensures sent.headers[3].0 == "Content-Length"
  {
    var body := Utf8(Dumps(JObj(r.payload)));
    Sent(r.status,
         [("Server", ServerVersion + " " + pythonVersion), ("Date", date),
          ("Content-Type", "application/json; charset=utf-8"), ("Content-Length", DecimalString(|body|))],
         body)
  }

  /** The Content-Length header reads back as the number of body bytes, which is
      never less than the number of characters of the JSON text. */
  lemma ContentLengthCountsBytes(r: Response, pythonVersion: string, date: string)
    ensures var sent := SendJson(r, pythonVersion, date);
            ParseDecimal(sent.headers[3].1) == |sent.body| >= |Dumps(JObj(r.payload))|
  {
    DecimalRoundTrip(|SendJson(r, pythonVersion, date).body|);
    Utf8Length(Dumps(JObj(r.payload)));
  }
}
