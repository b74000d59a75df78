/**
 One request of the HTTP server: the path, the framed response, the loop that writes it, and the client that
 reads the message back by sections 2.2 and 6.3 of RFC 9112.

 What `read` delivers, the JSON text and the outcomes of `write` are parameters: `write(k, n)` is the result
 of the k-th call when n bytes are left, and `running(k)` the flag before it.
 */
module HttpServer {
  import opened Words
  import opened Text

  const HTTP_OK := "HTTP/1.1 200 OK\r\n"
  const CONTENT_TYPE_JSON := "Content-Type: application/json\r\n"
  const CONNECTION_CLOSE := "Connection: close\r\n"
  const CRLF := "\r\n"

  // ----- the request

  /** The text between the first two spaces. */
  function PathOf(request: string): string {
    var methodEnd := IndexOf(request, ' ');
    if methodEnd == |request| then ""
    else
      var rest := request[methodEnd + 1..];
      var pathEnd := IndexOf(rest, ' ');
      if pathEnd == |rest| then "" else rest[..pathEnd]
  }

  lemma {:induction false} PathOfRequest(verb: string, target: string, rest: string)
    requires ' ' !in verb && ' ' !in target
    ensures PathOf(verb + " " + target + " " + rest) == target
  {
    var tail := target + " " + rest;
    assert verb + " " + target + " " + rest == verb + " " + tail;
    IndexOfConcat(verb, ' ', tail);
    IndexOfConcat(target, ' ', rest);
    assert (verb + " " + tail)[|verb| + 1..] == tail;
  }

  function BodyFor(path: string, json: string): string {
    if path == "/data" || path == "/" then json
    else if path == "/health" then "{\"status\": \"ok\"}\n"
    else "Not Found\n"
  }

  // ----- the response

  function Response(body: string): string {
    HTTP_OK + CONTENT_TYPE_JSON + CONNECTION_CLOSE + ("Content-Length: " + PrintNat(|body|) + CRLF + CRLF + body)
  }

  /** A request line without two spaces has no target. */
  lemma {:induction false} NoTarget(verb: string, target: string)
    requires ' ' !in verb && ' ' !in target
    ensures PathOf(verb) == "" && PathOf(verb + " " + target) == ""
  {
    IndexOfConcat(verb, ' ', target);
    assert (verb + " " + target)[|verb| + 1..] == target;
  }

  /** The response, which a client reads back as a message with this body. */
  method BuildResponse(body: string) returns (response: string)
    ensures response == Response(body)
    ensures ReadMessage(response) == Some(Message("HTTP/1.1 200 OK", body, ""))
  {
    response := HTTP_OK;
    response := response + CONTENT_TYPE_JSON;
    response := response + CONNECTION_CLOSE;
    var ss := "Content-Length: " + PrintNat(|body|);
    response := response + (ss + CRLF + CRLF + body);
    ResponseRoundTrip(body, "");
    assert Response(body) + "" == Response(body);
  }

  /** The results of `write`, which never takes more than it is given. */
  type Writer = w: (nat, nat) -> int | forall j, m :: w(j, m) <= m witness (_, _) => 0

  /** How many bytes the write loop gets out. */
  function Taken(total: nat, sent: nat, k: nat, write: Writer, running: nat -> bool): (n: nat)
    requires sent <= total
    ensures sent <= n <= total
    decreases total - sent
  {
    if sent < total && running(k) then
      var r := write(k, total - sent);
      if r <= 0 then sent else Taken(total, sent + r, k + 1, write, running)
    else sent
  }

  /** The write loop: `wire` is what the socket took. */
  method WriteAll(response: string, write: Writer, running: nat -> bool) returns (wire: string)
    ensures wire == response[..Taken(|response|, 0, 0, write, running)]
  {
    var sent, total, k := 0, |response|, 0;
    wire := "";
    while sent < total && running(k)
      invariant sent <= total && wire == response[..sent]
      invariant Taken(total, 0, 0, write, running) == Taken(total, sent, k, write, running)
      decreases total - sent
    {
      var r := write(k, total - sent);
      if r <= 0 {
        break;
      }
      wire := wire + response[sent..sent + r];
      sent := sent + r;
      k := k + 1;
    }
  }

  /** Everything is sent when the server keeps running and every write makes progress. */
  lemma {:induction false} ProgressSendsAll(total: nat, sent: nat, k: nat, write: Writer, running: nat -> bool)
    requires sent <= total
    requires forall j: nat :: j >= k ==> running(j)
    requires forall j: nat, m: nat :: j >= k && m > 0 ==> write(j, m) > 0
    ensures Taken(total, sent, k, write, running) == total
    decreases total - sent
  {
    if sent < total {
      var r := write(k, total - sent);
      assert r > 0;
      ProgressSendsAll(total, sent + r, k + 1, write, running);
    }
  }

  /** The k-th write, made while the server runs, takes the bytes from one place to a later one. */
  predicate OneWrite(from: nat, to: nat, k: nat, total: nat, write: Writer, running: nat -> bool) {
    from < total && running(k) && from + write(k, total - from) == to && to > from
  }

  /** The places at which successive writes start, from the beginning of the response. */
  ghost predicate Writes(at: seq<nat>, total: nat, write: Writer, running: nat -> bool) {
    at != [] && at[0] == 0 && forall i: nat :: i + 1 < |at| ==> OneWrite(at[i], at[i + 1], i, total, write, running)
  }

  /** Nothing more goes out: everything is sent, the server stops, or the next write fails. */
  predicate Stopped(sent: nat, k: nat, total: nat, write: Writer, running: nat -> bool) {
    sent == total || (sent < total && (!running(k) || write(k, total - sent) <= 0))
  }

  lemma {:induction false} WritesSnoc(at: seq<nat>, to: nat, total: nat, write: Writer, running: nat -> bool)
    requires Writes(at, total, write, running)
    requires OneWrite(at[|at| - 1], to, |at| - 1, total, write, running)
    ensures Writes(at + [to], total, write, running)
  {
    var more := at + [to];
    forall i: nat | i + 1 < |more|
      ensures OneWrite(more[i], more[i + 1], i, total, write, running)
    {
      assert i + 1 < |at| ==> OneWrite(at[i], at[i + 1], i, total, write, running);
    }
  }

  lemma {:induction false} TakenFrom(before: seq<nat>, total: nat, write: Writer, running: nat -> bool)
    returns (at: seq<nat>)
    requires Writes(before, total, write, running) && before[|before| - 1] <= total
    ensures Writes(at, total, write, running)
    ensures at[|at| - 1] == Taken(total, before[|before| - 1], |before| - 1, write, running)
    ensures Stopped(at[|at| - 1], |at| - 1, total, write, running)
    decreases total - before[|before| - 1]
  {
    var sent, k := before[|before| - 1], |before| - 1;
    if sent < total && running(k) && write(k, total - sent) > 0 {
      var to := sent + write(k, total - sent);
      WritesSnoc(before, to, total, write, running);
      at := TakenFrom(before + [to], total, write, running);
    } else {
      at := before;
    }
  }

  /** What goes out is what successive writes take, until nothing more does. */
  lemma {:induction false} TakenByWrites(total: nat, write: Writer, running: nat -> bool) returns (at: seq<nat>)
    ensures Writes(at, total, write, running) && at[|at| - 1] == Taken(total, 0, 0, write, running)
    ensures Stopped(at[|at| - 1], |at| - 1, total, write, running)
  {
    at := TakenFrom([0], total, write, running);
  }

  /** One connection; None and the empty text stand for a failed or empty read. */
  method HandleClient(received: Option<string>, json: string, write: Writer, running: nat -> bool)
    returns (wire: string)
    ensures received == None || received == Some("") ==> wire == ""
    ensures received != None && received != Some("") ==>
              var response := Response(BodyFor(PathOf(received.value), json));
              wire == response[..Taken(|response|, 0, 0, write, running)]
  {
    if received == None || received.value == "" {
      return "";
    }
    var path := PathOf(received.value);
    var body;
    if path == "/data" || path == "/" {
      body := json;
    } else if path == "/health" {
      body := "{\"status\": \"ok\"}\n";
    } else {
      body := "Not Found\n";
    }
    var response := BuildResponse(body);
    wire := WriteAll(response, write, running);
  }

  // ----- the client

  datatype Line = Line(text: string, rest: string)

  datatype Fields = Fields(lines: seq<string>, rest: string)

  datatype Message = Message(start: string, body: string, rest: string)

  /** The text up to the first CRLF. */
  function ReadLine(s: string): Option<Line> {
    var i := IndexOf(s, '\r');
    if i + 1 < |s| && s[i + 1] == '\n' then Some(Line(s[..i], s[i + 2..])) else None
  }

  /** The field lines up to the empty line. */
  function ReadFields(s: string): Option<Fields>
    decreases |s|
  {
    match ReadLine(s)
    case None => None
    case Some(line) =>
      if line.text == "" then Some(Fields([], line.rest))
      else
        match ReadFields(line.rest)
        case None => None
        case Some(more) => Some(more.(lines := [line.text] + more.lines))
  }

  /** The value of the first field of that name. */
  function FieldValue(lines: seq<string>, name: string): Option<string> {
    if lines == [] then None
    else
      var colon := IndexOf(lines[0], ':');
      if colon < |lines[0]| && lines[0][..colon] == name then Some(Trim(lines[0][colon + 1..]))
      else FieldValue(lines[1..], name)
  }

  function ContentLength(lines: seq<string>): Option<nat> {
    match FieldValue(lines, "Content-Length")
    case None => None
    case Some(value) => if value != "" && AllDigits(value) then Some(NatValue(value)) else None
  }

  /** The first message of the stream, and what follows; None while it is incomplete or when it is malformed. */
  function ReadMessage(s: string): Option<Message> {
    match ReadLine(s)
    case None => None
    case Some(start) =>
      match ReadFields(start.rest)
      case None => None
      case Some(head) => ReadBody(start.text, ContentLength(head.lines), head.rest)
  }

  function ReadBody(start: string, length: Option<nat>, rest: string): Option<Message> {
    match length
    case None => None
    case Some(n) => if n <= |rest| then Some(Message(start, rest[..n], rest[n..])) else None
  }

  lemma {:induction false} ReadLineOf(text: string, rest: string)
    requires '\r' !in text
    ensures ReadLine(text + CRLF + rest) == Some(Line(text, rest))
  {
    var s := text + CRLF + rest;
    assert s == text + ['\r'] + ("\n" + rest);
    IndexOfConcat(text, '\r', "\n" + rest);
    assert s[|text| + 1] == '\n' && s[..|text|] == text && s[|text| + 2..] == rest;
  }

  function Joined(lines: seq<string>): string {
    if lines == [] then "" else lines[0] + CRLF + Joined(lines[1..])
  }

  lemma {:induction false} OneMoreField(s: string, text: string, rest: string, lines: seq<string>, left: string)
    requires ReadLine(s) == Some(Line(text, rest)) && text != "" && ReadFields(rest) == Some(Fields(lines, left))
    ensures ReadFields(s) == Some(Fields([text] + lines, left))
  {
  }

  lemma {:induction false} ReadFieldsOf(lines: seq<string>, rest: string)
    requires forall i :: 0 <= i < |lines| ==> lines[i] != "" && '\r' !in lines[i]
    ensures ReadFields(Joined(lines) + CRLF + rest) == Some(Fields(lines, rest))
  {
    var s := Joined(lines) + CRLF + rest;
    if lines == [] {
      ReadLineOf("", rest);
      assert s == "" + CRLF + rest;
    } else {
      var tail := Joined(lines[1..]) + CRLF + rest;
      ReadLineOf(lines[0], tail);
      assert s == lines[0] + CRLF + tail;
      ReadFieldsOf(lines[1..], rest);
      OneMoreField(s, lines[0], tail, lines[1..], rest);
      assert [lines[0]] + lines[1..] == lines;
    }
  }

  // ----- more bytes do not change what was read

  lemma {:induction false} IndexExtends(s: string, c: char, more: string)
    requires IndexOf(s, c) < |s|
    ensures IndexOf(s + more, c) == IndexOf(s, c)
  {
    var i := IndexOf(s, c);
    assert s + more == s[..i] + [c] + (s[i + 1..] + more);
    IndexOfConcat(s[..i], c, s[i + 1..] + more);
  }

  lemma {:induction false} CutExtends(s: string, i: nat, more: string)
    requires i + 2 <= |s|
    ensures (s + more)[..i] == s[..i] && (s + more)[i + 1] == s[i + 1]
    ensures (s + more)[i + 2..] == s[i + 2..] + more
  {
  }

  lemma {:induction false} ReadLineExtends(s: string, more: string)
    requires ReadLine(s) != None
    ensures ReadLine(s + more) == Some(Line(ReadLine(s).value.text, ReadLine(s).value.rest + more))
  {
    IndexExtends(s, '\r', more);
    CutExtends(s, IndexOf(s, '\r'), more);
  }

  lemma {:induction false} ReadFieldsExtends(s: string, more: string)
    requires ReadFields(s) != None
    ensures ReadFields(s + more) == Some(Fields(ReadFields(s).value.lines, ReadFields(s).value.rest + more))
    decreases |s|
  {
    ReadLineExtends(s, more);
    var line := ReadLine(s).value;
    if line.text != "" {
      ReadFieldsExtends(line.rest, more);
    }
  }

  lemma {:induction false} ReadBodyExtends(start: string, length: Option<nat>, rest: string, more: string)
    requires ReadBody(start, length, rest) != None
    ensures var m := ReadBody(start, length, rest).value;
      ReadBody(start, length, rest + more) == Some(Message(m.start, m.body, m.rest + more))
  {
    var n := length.value;
    assert (rest + more)[..n] == rest[..n] && (rest + more)[n..] == rest[n..] + more;
  }

  lemma {:induction false} ReadMessageExtends(s: string, more: string)
    requires ReadMessage(s) != None
    ensures var m := ReadMessage(s).value; ReadMessage(s + more) == Some(Message(m.start, m.body, m.rest + more))
  {
    ReadLineExtends(s, more);
    var start := ReadLine(s).value;
    ReadFieldsExtends(start.rest, more);
    var head := ReadFields(start.rest).value;
    ReadBodyExtends(start.text, ContentLength(head.lines), head.rest, more);
  }

  // ----- the round trip

  function Field(name: string, value: string): string {
    name + ": " + value
  }

  lemma {:induction false} FieldSplits(name: string, value: string)
    requires ':' !in name && Trimmed(value)
    ensures var f := Field(name, value); var colon := IndexOf(f, ':');
      colon < |f| && f[..colon] == name && Trim(f[colon + 1..]) == value
  {
    var f := Field(name, value);
    assert f == name + [':'] + (" " + value);
    IndexOfConcat(name, ':', " " + value);
    assert f[|name| + 1..] == " " + value + "";
    TrimFindsCore(" ", value, "");
  }

  function HeadLines(n: nat): seq<string> {
    [Field("Content-Type", "application/json"), Field("Connection", "close"), Field("Content-Length", PrintNat(n))]
  }

  lemma {:induction false} FieldFound(name: string, value: string, more: seq<string>, wanted: string)
    requires ':' !in name && Trimmed(value)
    ensures FieldValue([Field(name, value)] + more, wanted) ==
            if name == wanted then Some(value) else FieldValue(more, wanted)
  {
    FieldSplits(name, value);
    assert ([Field(name, value)] + more)[1..] == more;
  }

  lemma {:induction false} FieldNames()
    ensures ':' !in "Content-Type" && ':' !in "Connection" && ':' !in "Content-Length"
    ensures Trimmed("application/json") && Trimmed("close")
    ensures "Content-Type" != "Content-Length" && "Connection" != "Content-Length"
  {
    assert |"Content-Type"| == 12 && |"Connection"| == 10 && |"Content-Length"| == 14;
  }

  lemma {:induction false} DigitsTrimmed(n: nat)
    ensures Trimmed(PrintNat(n))
  {
    assert IsDigit(PrintNat(n)[0]);
  }

  lemma {:induction false} ThirdField(n0: string, v0: string, n1: string, v1: string, name: string, value: string)
    requires ':' !in n0 && Trimmed(v0) && ':' !in n1 && Trimmed(v1) && ':' !in name && Trimmed(value)
    requires n0 != name && n1 != name
    ensures FieldValue([Field(n0, v0), Field(n1, v1), Field(name, value)], name) == Some(value)
  {
    assert [Field(n0, v0), Field(n1, v1), Field(name, value)]
        == [Field(n0, v0)] + ([Field(n1, v1)] + ([Field(name, value)] + []));
    FieldFound(name, value, [], name);
    FieldFound(n1, v1, [Field(name, value)] + [], name);
    FieldFound(n0, v0, [Field(n1, v1)] + ([Field(name, value)] + []), name);
  }

  lemma {:induction false} HeadLength(n: nat)
    ensures ContentLength(HeadLines(n)) == Some(n)
  {
    FieldNames();
    DigitsTrimmed(n);
    NatValueOfPrint(n);
    ThirdField("Content-Type", "application/json", "Connection", "close", "Content-Length", PrintNat(n));
  }

  lemma {:induction false} JoinedThree(a: string, b: string, c: string)
    ensures Joined([a, b, c]) == a + CRLF + (b + CRLF + (c + CRLF))
  {
    assert Joined([c]) == c + CRLF;
    assert [b, c][1..] == [c] && [a, b, c][1..] == [b, c];
  }

  lemma {:induction false} StatusLine()
    ensures HTTP_OK == "HTTP/1.1 200 OK" + CRLF && '\r' !in "HTTP/1.1 200 OK"
  {
  }

  lemma {:induction false} TypeLine()
    ensures CONTENT_TYPE_JSON == Field("Content-Type", "application/json") + CRLF
  {
  }

  lemma {:induction false} ConnectionLine()
    ensures CONNECTION_CLOSE == Field("Connection", "close") + CRLF
  {
  }

  lemma {:induction false} Regroup(h: string, a: string, b: string, c: string, e: string, body: string, rest: string)
    ensures h + e + (a + e) + (b + e) + (c + e + e + body) + rest ==
            h + e + ((a + e + (b + e + (c + e))) + e + (body + rest))
  {
  }

  /** The response is its status line, its fields, an empty line and the body. */
  lemma {:induction false} ResponseText(body: string, rest: string)
    ensures Response(body) + rest ==
            "HTTP/1.1 200 OK" + CRLF + (Joined(HeadLines(|body|)) + CRLF + (body + rest))
  {
    var h, digits := "HTTP/1.1 200 OK", PrintNat(|body|);
    var a, b := Field("Content-Type", "application/json"), Field("Connection", "close");
    var c := Field("Content-Length", digits);
    JoinedThree(a, b, c);
    StatusLine();
    TypeLine();
    ConnectionLine();
    Regroup(h, a, b, c, CRLF, body, rest);
  }

  lemma {:induction false} ReadInParts(s: string, start: string, head: string, lines: seq<string>, left: string)
    requires ReadLine(s) == Some(Line(start, head)) && ReadFields(head) == Some(Fields(lines, left))
    ensures ReadMessage(s) == ReadBody(start, ContentLength(lines), left)
  {
  }

  lemma {:induction false} WholeBody(start: string, body: string, rest: string)
    ensures ReadBody(start, Some(|body|), body + rest) == Some(Message(start, body, rest))
  {
    assert (body + rest)[..|body|] == body && (body + rest)[|body|..] == rest;
  }

  lemma {:induction false} ReadsMessage(start: string, lines: seq<string>, body: string, rest: string)
    requires '\r' !in start && ContentLength(lines) == Some(|body|)
    requires forall i :: 0 <= i < |lines| ==> lines[i] != "" && '\r' !in lines[i]
    ensures ReadMessage(start + CRLF + (Joined(lines) + CRLF + (body + rest))) == Some(Message(start, body, rest))
  {
    var head := Joined(lines) + CRLF + (body + rest);
    ReadLineOf(start, head);
    ReadFieldsOf(lines, body + rest);
    ReadInParts(start + CRLF + head, start, head, lines, body + rest);
    WholeBody(start, body, rest);
  }

  lemma {:induction false} HeadIsText(n: nat)
    ensures forall i :: 0 <= i < |HeadLines(n)| ==> HeadLines(n)[i] != "" && '\r' !in HeadLines(n)[i]
  {
    assert '\r' !in PrintNat(n);
  }

  /** Whatever follows it on the connection, the response is read back with its body. */
  lemma {:induction false} ResponseRoundTrip(body: string, rest: string)
    ensures ReadMessage(Response(body) + rest) == Some(Message("HTTP/1.1 200 OK", body, rest))
  {
    ResponseText(body, rest);
    StatusLine();
    HeadLength(|body|);
    HeadIsText(|body|);
    ReadsMessage("HTTP/1.1 200 OK", HeadLines(|body|), body, rest);
  }

  lemma {:induction false} SecondField(n0: string, v0: string, name: string, value: string, more: seq<string>)
    requires ':' !in n0 && Trimmed(v0) && ':' !in name && Trimmed(value) && n0 != name
    ensures FieldValue([Field(n0, v0), Field(name, value)] + more, name) == Some(value)
  {
    assert [Field(n0, v0), Field(name, value)] + more == [Field(n0, v0)] + ([Field(name, value)] + more);
    FieldFound(name, value, more, name);
    FieldFound(n0, v0, [Field(name, value)] + more, name);
  }

  lemma {:induction false} HeadParts(n: nat)
    ensures HeadLines(n) == [Field("Content-Type", "application/json")] + HeadLines(n)[1..]
    ensures HeadLines(n) ==
      [Field("Content-Type", "application/json"), Field("Connection", "close")] + HeadLines(n)[2..]
  {
  }

  lemma {:induction false} NamesDiffer()
    ensures "Content-Type" != "Connection"
  {
    assert |"Content-Type"| == 12 && |"Connection"| == 10;
  }

  /** What the fields of a response say. */
  lemma {:induction false} HeadFields(n: nat)
    ensures FieldValue(HeadLines(n), "Content-Type") == Some("application/json")
    ensures FieldValue(HeadLines(n), "Connection") == Some("close")
    ensures FieldValue(HeadLines(n), "Content-Length") == Some(PrintNat(n))
  {
    FieldNames();
    NamesDiffer();
    DigitsTrimmed(n);
    HeadParts(n);
    FieldFound("Content-Type", "application/json", HeadLines(n)[1..], "Content-Type");
    SecondField("Content-Type", "application/json", "Connection", "close", HeadLines(n)[2..]);
    ThirdField("Content-Type", "application/json", "Connection", "close", "Content-Length", PrintNat(n));
  }

  /** The fields a client finds behind the status line: JSON, a connection to be closed, and the length of the body. */
  lemma {:induction false} FieldsRead(body: string) returns (line: Line, head: Fields)
    ensures ReadLine(Response(body)) == Some(line) && ReadFields(line.rest) == Some(head) && head.rest == body
    ensures FieldValue(head.lines, "Content-Type") == Some("application/json")
    ensures FieldValue(head.lines, "Connection") == Some("close")
    ensures FieldValue(head.lines, "Content-Length") == Some(PrintNat(|body|))
  {
    var fields := Joined(HeadLines(|body|)) + CRLF + body;
    ResponseText(body, "");
    assert Response(body) + "" == Response(body) && body + "" == body;
    StatusLine();
    ReadLineOf("HTTP/1.1 200 OK", fields);
    HeadIsText(|body|);
    ReadFieldsOf(HeadLines(|body|), body);
    HeadFields(|body|);
    line, head := Line("HTTP/1.1 200 OK", fields), Fields(HeadLines(|body|), body);
  }

  lemma {:induction false} CutOff(whole: string, n: nat, start: string, body: string)
    requires n < |whole| && ReadMessage(whole) == Some(Message(start, body, ""))
    ensures ReadMessage(whole[..n]) == None
  {
    assert whole[..n] + whole[n..] == whole;
    if ReadMessage(whole[..n]) != None {
      ReadMessageExtends(whole[..n], whole[n..]);
    }
  }

  /** A client that was cut off notices: it reads the body exactly when the whole response arrived. */
  lemma {:induction false} CutOffIsNoticed(body: string, n: nat)
    requires n <= |Response(body)|
    ensures ReadMessage(Response(body)[..n]) ==
            if n == |Response(body)| then Some(Message("HTTP/1.1 200 OK", body, "")) else None
  {
    var whole := Response(body);
    ResponseRoundTrip(body, "");
    assert whole + "" == whole && whole[..|whole|] == whole;
    if n < |whole| {
      CutOff(whole, n, "HTTP/1.1 200 OK", body);
    }
  }

  // ----- what a client gets for its request

  /** What is read back for a target: the snapshot for / and /data, the state of health for /health, and a refusal in the
      body for everything else. */
  lemma {:induction false} TargetServed(verb: string, target: string, rest: string, json: string)
    requires ' ' !in verb && ' ' !in target
    ensures var body := BodyFor(PathOf(verb + " " + target + " " + rest), json);
      ReadMessage(Response(body)) == Some(Message("HTTP/1.1 200 OK", body, ""))
      && (target == "/data" || target == "/" ==> body == json)
      && (target == "/health" ==> body == "{\"status\": \"ok\"}\n")
      && (target != "/data" && target != "/" && target != "/health" ==> body == "Not Found\n")
  {
    PathOfRequest(verb, target, rest);
    var body := BodyFor(target, json);
    ResponseRoundTrip(body, "");
    assert Response(body) + "" == Response(body);
    TargetsDiffer();
  }

  lemma {:induction false} TargetsDiffer()
    ensures "/health" != "/data" && "/health" != "/"
  {
    assert |"/health"| == 7 && |"/data"| == 5;
  }

  // ----- the status

  predicate Served(path: string) {
    path == "/data" || path == "/" || path == "/health"
  }

  /** The status that is computed for a path, and then not used. */
  function DueStatus(path: string): string {
    if Served(path) then "HTTP/1.1 200 OK" else "HTTP/1.1 404 Not Found"
  }

  /** The client reads the status due to its request exactly when the path is one of those served. */
  lemma {:induction false} StatusDueIff(request: string, json: string)
    ensures var m := ReadMessage(Response(BodyFor(PathOf(request), json)));
      m.Some? && (m.value.start == DueStatus(PathOf(request)) <==> Served(PathOf(request)))
  {
    var body := BodyFor(PathOf(request), json);
    ResponseRoundTrip(body, "");
    assert Response(body) + "" == Response(body);
    StatusLinesDiffer();
  }

  lemma {:induction false} StatusLinesDiffer()
    ensures "HTTP/1.1 200 OK" != "HTTP/1.1 404 Not Found"
  {
    assert |"HTTP/1.1 200 OK"| == 15 && |"HTTP/1.1 404 Not Found"| == 22;
  }
}
