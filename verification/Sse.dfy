/**
 The SSE stream from the bridge's writer to the front's reader, byte by byte:
 messages may hold any bytes, and a cut may fall inside an encoded character.
 */
module Sse {
  import opened Wrappers
  import opened Bytes
  import opened Text

  // --- Line ends ---

  predicate IsEol(c: Octet) {
    c == '\r' || c == '\n'
  }

  function TrimEol(s: Bytes): Bytes {
    if s != "" && IsEol(s[|s| - 1]) then TrimEol(s[..|s| - 1]) else s
  }

  // --- The two ends ---

  const HEAD: Bytes := "event: message\n"
  const DATA: Bytes := "data: "

  /** What the bridge writes for one message. */
  function EncodeOne(m: Bytes): Bytes {
    HEAD + (DATA + m + "\n" + "\n")
  }

  function Encode(msgs: seq<Bytes>): Bytes {
    if msgs == [] then "" else EncodeOne(msgs[0]) + Encode(msgs[1..])
  }

  /** What dispatching an event's data writes. */
  function Written(data: Bytes): seq<Bytes> {
    if Trim(data) == "" then [] else [Trim(data)]
  }

  /** Whether that event is the response being waited for; an empty want matches nothing. */
  predicate Completes(data: Bytes, want: Bytes, idOf: Bytes -> Option<Bytes>) {
    want != "" && Trim(data) != "" && idOf(Trim(data)) == Some(want)
  }

  /** The data collected after one more line. */
  function Collect(data: Bytes, line: Bytes): Bytes {
    var l := TrimEol(line);
    if "data:" <= l then
      var rest := l[5..];
      data + (if " " <= rest then rest[1..] else rest) + "\n"
    else data
  }

  /** The lines written while reading text with some data already collected. */
  function Parse(text: Bytes, data: Bytes, want: Bytes, idOf: Bytes -> Option<Bytes>): seq<Bytes>
    decreases |text|
  {
    if text == "" then Written(data)
    else
      var i := IndexOf(text, '\n');
      if i < 0 then
        Written(if TrimEol(text) == "" then data else Collect(data, text))
      else
        var line, rest := text[..i + 1], text[i + 1..];
        if TrimEol(line) == "" then
          Written(data) + if Completes(data, want, idOf) then [] else Parse(rest, "", want, idOf)
        else Parse(rest, Collect(data, line), want, idOf)
  }

  /** The first line of a non-empty text, with its newline if it has one. */
  function LineOf(text: Bytes): Bytes {
    var i := IndexOf(text, '\n');
    if i < 0 then text else text[..i + 1]
  }

  lemma ParseLine(text: Bytes, data: Bytes, want: Bytes, idOf: Bytes -> Option<Bytes>)
    requires text != ""
    ensures var i, line := IndexOf(text, '\n'), LineOf(text);
            Parse(text, data, want, idOf)
            == if TrimEol(line) == "" then
                 Written(data)
                 + if i < 0 || Completes(data, want, idOf) then [] else Parse(text[i + 1..], "", want, idOf)
               else if i < 0 then Written(Collect(data, line))
               else Parse(text[i + 1..], Collect(data, line), want, idOf)
  {
    hide Trim, TrimEol, Collect, Completes, Written;
    assert Written(data) + [] == Written(data);
  }

  /** The reader's loop: collects data lines, dispatches at blank lines and at the end of the stream. */
  method ReadEvents(text: Bytes, want: Bytes, idOf: Bytes -> Option<Bytes>) returns (out: seq<Bytes>)
    ensures out == Parse(text, "", want, idOf)
  {
    hide Trim, TrimEol, Collect, Completes, Written, Parse, LineOf;
    out := [];
    var data: Bytes, rest := "", text;
    while rest != ""
      invariant out + Parse(rest, data, want, idOf) == Parse(text, "", want, idOf)
      decreases |rest|
    {
      ParseLine(rest, data, want, idOf);
      var i := IndexOf(rest, '\n');
      var line := LineOf(rest);
      if TrimEol(line) == "" {
        AppendAssoc(out, Written(data), Parse(rest[i + 1..], "", want, idOf));
        out := out + Written(data);
        if i < 0 || Completes(data, want, idOf) { return; }
        data := "";
      } else {
        data := Collect(data, line);
        if i < 0 { return out + Written(data); }
      }
      rest := rest[i + 1..];
    }
    ParseEnd(data, want, idOf);
    out := out + Written(data);
  }

  lemma AppendAssoc(a: seq<Bytes>, b: seq<Bytes>, c: seq<Bytes>)
    ensures a + (b + c) == a + b + c
    ensures a + (b + []) == a + b
  {
  }

  lemma ParseEnd(data: Bytes, want: Bytes, idOf: Bytes -> Option<Bytes>)
    ensures Parse("", data, want, idOf) == Written(data)
  {
  }

  // --- Trimming and concatenation ---

  /** Only line terminators are cut, and none is left at the end. */
  lemma {:induction false} TrimEolSplit(s: Bytes)
    ensures TrimEol(s) <= s && forall c :: c in s[|TrimEol(s)|..] ==> IsEol(c)
    ensures TrimEol(s) == "" || !IsEol(TrimEol(s)[|TrimEol(s)| - 1])
  {
    if s != "" && IsEol(s[|s| - 1]) {
      var front := s[..|s| - 1];
      TrimEolSplit(front);
      assert s[|TrimEol(s)|..] == front[|TrimEol(s)|..] + [s[|s| - 1]];
    }
  }

  lemma {:induction false} TrimEolAppend(s: Bytes, m: Bytes)
    requires s != "" && !IsEol(s[|s| - 1])
    ensures TrimEol(s + m) == s + TrimEol(m)
    decreases |m|
  {
    if m == "" {
      assert s + m == s;
    } else if IsEol(m[|m| - 1]) {
      assert (s + m)[..|s + m| - 1] == s + m[..|m| - 1];
      TrimEolAppend(s, m[..|m| - 1]);
    }
  }

  /** A line that went through the wire comes back trimmed. */
  lemma TrimThroughLine(m: Bytes)
    ensures Trim(TrimEol(m) + "\n") == Trim(m)
  {
    TrimEolSplit(m);
    var cut := m[|TrimEol(m)|..];
    assert m == TrimEol(m) + cut;
    TrimAppend(TrimEol(m), cut);
    TrimAppend(TrimEol(m), "\n");
  }

  // --- One event ---

  lemma HeadLine(rest: Bytes, want: Bytes, idOf: Bytes -> Option<Bytes>)
    ensures Parse(HEAD + rest, "", want, idOf) == Parse(rest, "", want, idOf)
  {
    hide Trim, Completes, Written;
    var text := HEAD + rest;
    assert text == "event: message" + ['\n'] + rest;
    IndexOfAppend("event: message", '\n', rest);
    var line := text[..15];
    assert line == "event: message" + "\n";
    TrimEolAppend("event: message", "\n");
    assert TrimEol("\n") == "";
    assert TrimEol(line) == "event: message";
    assert TrimEol(line)[0] == 'e';
    assert Collect("", line) == "";
    ParseLine(text, "", want, idOf);
  }

  /** A data line, whole or cut short by the end of the stream, collects its payload. */
  lemma CollectData(m: Bytes)
    ensures Collect("", DATA + m) == TrimEol(m) + "\n" && TrimEol(DATA + m) != ""
  {
    TrimEolAppend(DATA, m);
    var l := DATA + TrimEol(m);
    assert l[..5] == "data:";
    assert l[5..] == " " + TrimEol(m);
    assert l[5..][1..] == TrimEol(m);
  }

  lemma TrimEolNewline(m: Bytes)
    ensures TrimEol(m + "\n") == TrimEol(m)
  {
    assert (m + "\n")[..|m + "\n"| - 1] == m;
  }

  lemma DataLine(m: Bytes, rest: Bytes, want: Bytes, idOf: Bytes -> Option<Bytes>)
    requires '\n' !in m
    ensures Parse(DATA + m + "\n" + rest, "", want, idOf) == Parse(rest, TrimEol(m) + "\n", want, idOf)
  {
    hide Trim, TrimEol, Collect, Completes, Written, Parse;
    var text := DATA + m + "\n" + rest;
    assert text == (DATA + m) + ['\n'] + rest;
    IndexOfAppend(DATA + m, '\n', rest);
    assert text[..|DATA + m| + 1] == DATA + (m + "\n");
    CollectData(m + "\n");
    TrimEolNewline(m);
    ParseLine(text, "", want, idOf);
  }

  lemma BlankLine(data: Bytes, rest: Bytes, want: Bytes, idOf: Bytes -> Option<Bytes>)
    ensures Parse("\n" + rest, data, want, idOf)
            == Written(data) + if Completes(data, want, idOf) then [] else Parse(rest, "", want, idOf)
  {
    hide Trim, Collect, Completes, Written;
    var text := "\n" + rest;
    assert text == "" + ['\n'] + rest;
    IndexOfAppend("", '\n', rest);
    assert text[..1] == "\n" && TrimEol("\n") == "";
    ParseLine(text, data, want, idOf);
  }

  /** Reading one whole event writes its trimmed message and stops if it was the one wanted. */
  lemma OneEvent(m: Bytes, rest: Bytes, want: Bytes, idOf: Bytes -> Option<Bytes>)
    requires '\n' !in m
    ensures Parse(EncodeOne(m) + rest, "", want, idOf)
            == Written(m) + if Completes(m, want, idOf) then [] else Parse(rest, "", want, idOf)
  {
    hide Parse, Trim, TrimEol;
    assert EncodeOne(m) + rest == HEAD + (DATA + m + "\n" + ("\n" + rest));
    HeadLine(DATA + m + "\n" + ("\n" + rest), want, idOf);
    DataLine(m, "\n" + rest, want, idOf);
    BlankLine(TrimEol(m) + "\n", rest, want, idOf);
    TrimThroughLine(m);
  }

  lemma {:induction false} WrittenBlank(data: Bytes)
    requires forall c :: c in data ==> OneByteSpace(c)
    ensures Written(data) == []
  {
    TrimAppend("", data);
    assert "" + data == data;
  }

  // --- Round trip ---

  function TrimAll(msgs: seq<Bytes>): seq<Bytes> {
    if msgs == [] then [] else [Trim(msgs[0])] + TrimAll(msgs[1..])
  }

  ghost predicate Sendable(msgs: seq<Bytes>) {
    forall m :: m in msgs ==> '\n' !in m && Trim(m) != ""
  }

  /** The messages up to and including the first one wanted, or all. */
  function Through(msgs: seq<Bytes>, want: Bytes, idOf: Bytes -> Option<Bytes>): seq<Bytes> {
    if msgs == [] then []
    else [msgs[0]] + if Completes(msgs[0], want, idOf) then [] else Through(msgs[1..], want, idOf)
  }

  /** Reading back a stream of messages writes each, trimmed and in order, up to the wanted response. */
  lemma {:induction false} RoundTrip(msgs: seq<Bytes>, want: Bytes, idOf: Bytes -> Option<Bytes>)
    requires Sendable(msgs)
    ensures Parse(Encode(msgs), "", want, idOf) == TrimAll(Through(msgs, want, idOf))
  {
    hide Parse, Trim, EncodeOne, Completes;
    if msgs == [] {
      ParseEnd("", want, idOf);
      WrittenBlank("");
    } else {
      var m, rest := msgs[0], msgs[1..];
      assert m in msgs && forall x :: x in rest ==> x in msgs;
      OneEvent(m, Encode(rest), want, idOf);
      RoundTrip(rest, want, idOf);
      var t := Through(msgs, want, idOf);
      assert t[0] == m;
      assert t[1..] == if Completes(m, want, idOf) then [] else Through(rest, want, idOf);
    }
  }

  /** With no wanted id nothing is cut off. */
  lemma {:induction false} ThroughAll(msgs: seq<Bytes>, idOf: Bytes -> Option<Bytes>)
    ensures Through(msgs, "", idOf) == msgs
  {
    if msgs != [] { ThroughAll(msgs[1..], idOf); }
  }

  /** Response i is the first with the wanted id, or i is past the end and none has it. */
  ghost predicate FirstWanted(msgs: seq<Bytes>, i: nat, want: Bytes, idOf: Bytes -> Option<Bytes>) {
    && i <= |msgs|
    && (forall j :: 0 <= j < i ==> idOf(Trim(msgs[j])) != Some(want))
    && (i < |msgs| ==> idOf(Trim(msgs[i])) == Some(want))
  }

  /** The messages through the i-th, or all if there is no i-th. */
  function UpTo(msgs: seq<Bytes>, i: nat): seq<Bytes>
    requires i <= |msgs|
  {
    if i < |msgs| then msgs[..i + 1] else msgs
  }

  lemma {:induction false} ThroughWanted(msgs: seq<Bytes>, i: nat, want: Bytes, idOf: Bytes -> Option<Bytes>)
    requires Sendable(msgs) && want != "" && FirstWanted(msgs, i, want, idOf)
    ensures Through(msgs, want, idOf) == UpTo(msgs, i)
    decreases |msgs|
  {
    hide Trim;
    if msgs != [] {
      var rest := msgs[1..];
      assert msgs[0] in msgs && forall x :: x in rest ==> x in msgs;
      assert msgs == [msgs[0]] + rest;
      if i > 0 {
        assert forall j :: 0 <= j < i - 1 ==> rest[j] == msgs[j + 1];
        assert i < |msgs| ==> rest[i - 1] == msgs[i];
        ThroughWanted(rest, i - 1, want, idOf);
        assert UpTo(msgs, i) == [msgs[0]] + UpTo(rest, i - 1);
      } else {
        assert UpTo(msgs, 0) == [msgs[0]] + [];
      }
    }
  }

  /**
   With a wanted id the reader writes every message before the first response with
   that id, then the response, and stops; if none has it, it writes them all.
   */
  lemma StopsAtTheWantedResponse(msgs: seq<Bytes>, i: nat, want: Bytes, idOf: Bytes -> Option<Bytes>)
    requires Sendable(msgs) && want != "" && FirstWanted(msgs, i, want, idOf)
    ensures Parse(Encode(msgs), "", want, idOf) == TrimAll(UpTo(msgs, i))
  {
    hide Parse, Trim, Encode;
    RoundTrip(msgs, want, idOf);
    ThroughWanted(msgs, i, want, idOf);
  }

  /** With none it writes every message. */
  lemma WritesEverything(msgs: seq<Bytes>, idOf: Bytes -> Option<Bytes>)
    requires Sendable(msgs)
    ensures Parse(Encode(msgs), "", "", idOf) == TrimAll(msgs)
  {
    hide Parse, Trim, Encode;
    RoundTrip(msgs, "", idOf);
    ThroughAll(msgs, idOf);
  }

  // --- Line terminators ---

  lemma TrimEolReturn(m: Bytes)
    ensures TrimEol(m + "\r") == TrimEol(m)
  {
    assert (m + "\r")[..|m + "\r"| - 1] == m;
  }

  /** The first line of a text that starts with x, then a newline. */
  lemma FirstLine(x: Bytes, rest: Bytes)
    requires '\n' !in x
    ensures IndexOf(x + "\n" + rest, '\n') == |x| && x + "\n" + rest != ""
    ensures LineOf(x + "\n" + rest) == x + "\n" && (x + "\n" + rest)[|x| + 1..] == rest
  {
    IndexOfAppend(x, '\n', rest);
    assert (x + "\n" + rest)[..|x| + 1] == x + "\n";
  }

  lemma ParseFirst(x: Bytes, rest: Bytes, data: Bytes, want: Bytes, idOf: Bytes -> Option<Bytes>)
    requires '\n' !in x
    ensures Parse(x + "\n" + rest, data, want, idOf)
            == if TrimEol(x) == "" then
                 Written(data) + if Completes(data, want, idOf) then [] else Parse(rest, "", want, idOf)
               else Parse(rest, Collect(data, x), want, idOf)
  {
    hide Trim, TrimEol, Completes, Written, Parse, LineOf;
    FirstLine(x, rest);
    ParseLine(x + "\n" + rest, data, want, idOf);
    TrimEolNewline(x);
  }

  /** A carriage return before a newline makes no difference, wherever it stands and whatever is being read. */
  lemma {:induction false} ReturnsAreIgnored(a: Bytes, b: Bytes, data: Bytes, want: Bytes, idOf: Bytes -> Option<Bytes>)
    ensures Parse(a + "\r\n" + b, data, want, idOf) == Parse(a + "\n" + b, data, want, idOf)
    decreases |a|
  {
    hide Trim, TrimEol, Completes, Written, Parse;
    var i := IndexOf(a, '\n');
    if i < 0 {
      assert a + "\r\n" + b == (a + "\r") + "\n" + b;
      TrimEolReturn(a);
      ParseFirst(a, b, data, want, idOf);
      ParseFirst(a + "\r", b, data, want, idOf);
    } else {
      var x, rest := a[..i], a[i + 1..];
      assert a + "\r\n" + b == x + "\n" + (rest + "\r\n" + b);
      assert a + "\n" + b == x + "\n" + (rest + "\n" + b);
      ParseFirst(x, rest + "\r\n" + b, data, want, idOf);
      ParseFirst(x, rest + "\n" + b, data, want, idOf);
      ReturnsAreIgnored(rest, b, "", want, idOf);
      ReturnsAreIgnored(rest, b, Collect(data, x), want, idOf);
    }
  }

  /** Between lines, a line that is not blank and no data line makes no difference. */
  lemma {:induction false} OtherLinesAreIgnored(a: Bytes, x: Bytes, b: Bytes, data: Bytes, want: Bytes,
                                                idOf: Bytes -> Option<Bytes>)
    requires a == "" || a[|a| - 1] == '\n'
    requires '\n' !in x && TrimEol(x) != "" && !("data:" <= x)
    ensures Parse(a + (x + "\n" + b), data, want, idOf) == Parse(a + b, data, want, idOf)
    decreases |a|
  {
    TrimEolSplit(x);
    hide Trim, TrimEol, Completes, Written, Parse;
    if a == "" {
      assert a + b == b && a + (x + "\n" + b) == x + "\n" + b;
      assert Collect(data, x) == data;
      ParseFirst(x, b, data, want, idOf);
    } else {
      var i := IndexOf(a, '\n');
      var first, rest := a[..i], a[i + 1..];
      assert a + (x + "\n" + b) == first + "\n" + (rest + (x + "\n" + b));
      assert a + b == first + "\n" + (rest + b);
      ParseFirst(first, rest + (x + "\n" + b), data, want, idOf);
      ParseFirst(first, rest + b, data, want, idOf);
      OtherLinesAreIgnored(rest, x, b, "", want, idOf);
      OtherLinesAreIgnored(rest, x, b, Collect(data, first), want, idOf);
    }
  }

  // --- Events of several data lines ---

  /** One line of a message as sent, with or without the space after the colon. */
  datatype Piece = Piece(spaced: bool, text: Bytes)

  predicate Plain(l: Piece) {
    '\r' !in l.text && '\n' !in l.text && (l.spaced || !(" " <= l.text))
  }

  function LineFor(l: Piece): Bytes {
    (if l.spaced then "data: " else "data:") + l.text
  }

  function OnTheWire(ls: seq<Piece>): Bytes {
    if ls == [] then "" else LineFor(ls[0]) + "\n" + OnTheWire(ls[1..])
  }

  /** The lines of the payload, each with its newline. */
  function Payload(ls: seq<Piece>): Bytes {
    if ls == [] then "" else ls[0].text + "\n" + Payload(ls[1..])
  }

  lemma CollectPlain(data: Bytes, l: Piece)
    requires Plain(l)
    ensures var x := LineFor(l);
            '\n' !in x && TrimEol(x) != "" && Collect(data, x) == data + (l.text + "\n")
  {
    var x := LineFor(l);
    assert x[0] == 'd' && x[4] == ':';
    assert x[|x| - 1] == ':' || x[|x| - 1] == ' ' || x[|x| - 1] in l.text;
    assert TrimEol(x) == x;
    assert x[5..] == if l.spaced then " " + l.text else l.text;
  }

  lemma WireUnfolds(ls: seq<Piece>, rest: Bytes, data: Bytes)
    requires ls != []
    ensures OnTheWire(ls) + rest == LineFor(ls[0]) + "\n" + (OnTheWire(ls[1..]) + rest)
    ensures data + (ls[0].text + "\n") + Payload(ls[1..]) == data + Payload(ls)
  {
    hide LineFor;
  }

  lemma {:induction false} LinesCollect(ls: seq<Piece>, rest: Bytes, data: Bytes, want: Bytes,
                                        idOf: Bytes -> Option<Bytes>)
    requires forall l :: l in ls ==> Plain(l)
    ensures Parse(OnTheWire(ls) + rest, data, want, idOf) == Parse(rest, data + Payload(ls), want, idOf)
    decreases |ls|
  {
    hide Trim, TrimEol, Completes, Written, Parse, Collect, Plain, LineFor;
    if ls == [] {
      assert OnTheWire(ls) + rest == rest && data + Payload(ls) == data;
    } else {
      hide OnTheWire, Payload;
      CollectPlain(data, ls[0]);
      WireUnfolds(ls, rest, data);
      ParseFirst(LineFor(ls[0]), OnTheWire(ls[1..]) + rest, data, want, idOf);
      LinesCollect(ls[1..], rest, data + (ls[0].text + "\n"), want, idOf);
    }
  }

  /** An event sent in any number of data lines is one message, their texts joined by newlines and trimmed. */
  lemma DataLinesAreJoined(ls: seq<Piece>, rest: Bytes, idOf: Bytes -> Option<Bytes>)
    requires forall l :: l in ls ==> Plain(l)
    ensures var message := Trim(Payload(ls));
            Parse(OnTheWire(ls) + ("\n" + rest), "", "", idOf)
            == (if message == "" then [] else [message]) + Parse(rest, "", "", idOf)
  {
    hide Trim, Parse;
    LinesCollect(ls, "\n" + rest, "", "", idOf);
    assert "" + Payload(ls) == Payload(ls);
    assert "" + "\n" + rest == "\n" + rest;
    ParseFirst("", rest, Payload(ls), "", idOf);
  }

  // --- Streams cut short ---

  /** What is written of a message of whose event only the first k bytes arrived. */
  function Partial(m: Bytes, k: nat): seq<Bytes> {
    var header := |HEAD| + |DATA|;
    if k < header then [] else Written(m[..if k - header <= |m| then k - header else |m|])
  }

  /** What is written when the stream of msgs stops after k bytes, or at the wanted response before. */
  function CutOutput(msgs: seq<Bytes>, k: nat, want: Bytes, idOf: Bytes -> Option<Bytes>): seq<Bytes>
    decreases |msgs|
  {
    if msgs == [] then []
    else
      var n := |EncodeOne(msgs[0])|;
      if k < n then Partial(msgs[0], k)
      else Written(msgs[0]) + if Completes(msgs[0], want, idOf) then [] else CutOutput(msgs[1..], k - n, want, idOf)
  }

  /** A text without a newline and not starting with the data field writes nothing. */
  lemma FieldLost(text: Bytes, want: Bytes, idOf: Bytes -> Option<Bytes>)
    requires '\n' !in text && !("data:" <= TrimEol(text))
    ensures Parse(text, "", want, idOf) == []
  {
    hide Trim, TrimEol;
    IndexOfNone(text, '\n');
    WrittenBlank("");
    if text == "" { ParseEnd("", want, idOf); } else { ParseLine(text, "", want, idOf); }
  }

  lemma IndexOfNone(text: Bytes, c: char)
    requires c !in text
    ensures IndexOf(text, c) == -1
  {
    assert forall i :: 0 <= i < |text| ==> text[i] != c;
  }

  /** A prefix of the first header line. */
  lemma CutInHead(k: nat, want: Bytes, idOf: Bytes -> Option<Bytes>)
    requires k <= |HEAD|
    ensures Parse(HEAD[..k], "", want, idOf) == []
  {
    if k == |HEAD| {
      HeadLine("", want, idOf);
      assert HEAD + "" == HEAD[..k];
      ParseEnd("", want, idOf);
      WrittenBlank("");
    } else {
      var text := HEAD[..k];
      assert text <= "event: message";
      TrimEolSplit(text);
      assert TrimEol(text) != "" ==> TrimEol(text)[0] == 'e';
      FieldLost(text, want, idOf);
    }
  }

  /** A prefix of the data field's name. */
  lemma CutInField(k: nat, want: Bytes, idOf: Bytes -> Option<Bytes>)
    requires k <= 5
    ensures Parse(DATA[..k], "", want, idOf) == []
  {
    var text := DATA[..k];
    assert '\n' !in text;
    if k < 5 {
      TrimEolSplit(text);
      assert |TrimEol(text)| < 5;
      FieldLost(text, want, idOf);
    } else {
      assert text == "data:";
      IndexOfNone(text, '\n');
      assert TrimEol(text) == "data:";
      assert Collect("", text) == "\n";
      ParseLine(text, "", want, idOf);
      WrittenBlank("\n");
    }
  }

  /** A data line cut before its newline still delivers what has arrived of the payload. */
  lemma CutInData(m: Bytes, want: Bytes, idOf: Bytes -> Option<Bytes>)
    requires '\n' !in m
    ensures Parse(DATA + m, "", want, idOf) == Written(m)
  {
    hide Trim, TrimEol, Collect, Parse;
    IndexOfNone(DATA + m, '\n');
    CollectData(m);
    ParseLine(DATA + m, "", want, idOf);
    TrimThroughLine(m);
  }

  lemma CutWithoutBlank(m: Bytes, want: Bytes, idOf: Bytes -> Option<Bytes>)
    requires '\n' !in m
    ensures Parse(DATA + m + "\n", "", want, idOf) == Written(m)
  {
    hide Trim, TrimEol, Collect, Parse;
    DataLine(m, "", want, idOf);
    assert DATA + m + "\n" + "" == DATA + m + "\n";
    ParseEnd(TrimEol(m) + "\n", want, idOf);
    TrimThroughLine(m);
  }

  /** One event cut anywhere before its end. */
  lemma CutEvent(m: Bytes, k: nat, want: Bytes, idOf: Bytes -> Option<Bytes>)
    requires '\n' !in m && k < |EncodeOne(m)|
    ensures Parse(EncodeOne(m)[..k], "", want, idOf) == Partial(m, k)
  {
    hide Parse, Trim;
    var body := DATA + m + "\n" + "\n";
    if k <= |HEAD| {
      assert EncodeOne(m)[..k] == HEAD[..k];
      CutInHead(k, want, idOf);
    } else {
      var q := k - |HEAD|;
      assert EncodeOne(m)[..k] == HEAD + body[..q];
      HeadLine(body[..q], want, idOf);
      if q < |DATA| {
        assert body[..q] == DATA[..q];
        CutInField(q, want, idOf);
      } else if q <= |DATA| + |m| {
        var p := q - |DATA|;
        assert body[..q] == DATA + m[..p];
        CutInData(m[..p], want, idOf);
      } else {
        assert body[..q] == DATA + m + "\n" && m[..|m|] == m;
        CutWithoutBlank(m, want, idOf);
      }
    }
  }

  /** What exactly is written when the stream is cut after k bytes. */
  lemma {:induction false} CutStream(msgs: seq<Bytes>, k: nat, want: Bytes, idOf: Bytes -> Option<Bytes>)
    requires Sendable(msgs) && k <= |Encode(msgs)|
    ensures Parse(Encode(msgs)[..k], "", want, idOf) == CutOutput(msgs, k, want, idOf)
    decreases |msgs|
  {
    hide Parse, Trim, EncodeOne;
    if msgs == [] {
      ParseEnd("", want, idOf);
      WrittenBlank("");
    } else {
      var m, rest := msgs[0], msgs[1..];
      assert m in msgs && forall x :: x in rest ==> x in msgs;
      var n := |EncodeOne(m)|;
      if k < n {
        assert Encode(msgs)[..k] == EncodeOne(m)[..k];
        CutEvent(m, k, want, idOf);
      } else {
        assert Encode(msgs)[..k] == EncodeOne(m) + Encode(rest)[..k - n];
        OneEvent(m, Encode(rest)[..k - n], want, idOf);
        CutStream(rest, k - n, want, idOf);
      }
    }
  }

  /** How many whole events the first k bytes hold, up to the wanted response. */
  function Whole(msgs: seq<Bytes>, k: nat, want: Bytes, idOf: Bytes -> Option<Bytes>): (j: nat)
    ensures j <= |msgs|
    decreases |msgs|
  {
    if msgs == [] || k < |EncodeOne(msgs[0])| then 0
    else if Completes(msgs[0], want, idOf) then 1
    else 1 + Whole(msgs[1..], k - |EncodeOne(msgs[0])|, want, idOf)
  }

  /** The first j messages, trimmed, and at most one trimmed prefix of the next. */
  ghost predicate WholeAndPart(out: seq<Bytes>, msgs: seq<Bytes>, j: nat)
    requires j <= |msgs|
  {
    || out == TrimAll(msgs[..j])
    || (j < |msgs| && exists p :: 0 <= p <= |msgs[j]| && out == TrimAll(msgs[..j]) + [Trim(msgs[j][..p])])
  }

  lemma OneMoreWhole(out: seq<Bytes>, msgs: seq<Bytes>, j: nat)
    requires 0 < j <= |msgs| && WholeAndPart(out, msgs[1..], j - 1)
    ensures WholeAndPart([Trim(msgs[0])] + out, msgs, j)
  {
    var rest := msgs[1..];
    assert msgs[..j][0] == msgs[0] && msgs[..j][1..] == rest[..j - 1];
    hide Trim;
    if out != TrimAll(rest[..j - 1]) {
      var p :| 0 <= p <= |rest[j - 1]| && out == TrimAll(rest[..j - 1]) + [Trim(rest[j - 1][..p])];
      assert [Trim(msgs[0])] + out == TrimAll(msgs[..j]) + [Trim(msgs[j][..p])];
    }
  }

  lemma PartOfFirst(msgs: seq<Bytes>, k: nat, want: Bytes, idOf: Bytes -> Option<Bytes>)
    requires msgs != [] && Sendable(msgs) && k < |EncodeOne(msgs[0])|
    ensures WholeAndPart(CutOutput(msgs, k, want, idOf), msgs, 0)
  {
    hide Trim, EncodeOne;
    var m, header := msgs[0], |HEAD| + |DATA|;
    assert m in msgs && TrimAll(msgs[..0]) == [];
    if k >= header {
      var p := if k - header <= |m| then k - header else |m|;
      assert Partial(m, k) == Written(m[..p]);
      assert TrimAll(msgs[..0]) + [Trim(msgs[0][..p])] == [Trim(m[..p])];
    }
  }

  lemma JustFirst(msgs: seq<Bytes>)
    requires msgs != []
    ensures WholeAndPart([Trim(msgs[0])], msgs, 1)
  {
    assert msgs[..1] == [msgs[0]] && msgs[..1][1..] == [];
  }

  /**
   Wherever the stream is cut, the reader has written the messages of the whole
   events, in order and up to the wanted response, and after them at most one
   trimmed prefix of the next one.
   */
  lemma {:induction false} CutWritesAPrefix(msgs: seq<Bytes>, k: nat, want: Bytes, idOf: Bytes -> Option<Bytes>)
    requires Sendable(msgs)
    ensures WholeAndPart(CutOutput(msgs, k, want, idOf), msgs, Whole(msgs, k, want, idOf))
    decreases |msgs|
  {
    hide Trim, EncodeOne, WholeAndPart, Completes;
    if msgs == [] {
      NothingCut(k, want, idOf);
    } else {
      var n := |EncodeOne(msgs[0])|;
      assert msgs[0] in msgs && forall x :: x in msgs[1..] ==> x in msgs;
      if k < n {
        PartOfFirst(msgs, k, want, idOf);
      } else if Completes(msgs[0], want, idOf) {
        JustFirst(msgs);
        assert Written(msgs[0]) + [] == [Trim(msgs[0])];
      } else {
        CutWritesAPrefix(msgs[1..], k - n, want, idOf);
        OneMoreWhole(CutOutput(msgs[1..], k - n, want, idOf), msgs, Whole(msgs, k, want, idOf));
      }
    }
  }

  lemma NothingCut(k: nat, want: Bytes, idOf: Bytes -> Option<Bytes>)
    ensures WholeAndPart(CutOutput([], k, want, idOf), [], Whole([], k, want, idOf))
  {
  }

  /** A cut stream is read as if it ended with the wanted response and nothing were wanted. */
  lemma {:induction false} CutStopsAtTheWantedResponse(msgs: seq<Bytes>, i: nat, k: nat, want: Bytes,
                                                       idOf: Bytes -> Option<Bytes>)
    requires Sendable(msgs) && want != "" && FirstWanted(msgs, i, want, idOf) && k <= |Encode(msgs)|
    ensures Parse(Encode(msgs)[..k], "", want, idOf) == CutOutput(UpTo(msgs, i), k, "", idOf)
  {
    hide Parse, Trim, Encode;
    CutStream(msgs, k, want, idOf);
    CutThroughWanted(msgs, i, k, want, idOf);
  }

  lemma {:induction false} CutThroughWanted(msgs: seq<Bytes>, i: nat, k: nat, want: Bytes, idOf: Bytes -> Option<Bytes>)
    requires Sendable(msgs) && want != "" && FirstWanted(msgs, i, want, idOf)
    ensures CutOutput(msgs, k, want, idOf) == CutOutput(UpTo(msgs, i), k, "", idOf)
    decreases |msgs|
  {
    hide Trim, EncodeOne, Partial;
    if msgs != [] {
      var n, rest := |EncodeOne(msgs[0])|, msgs[1..];
      assert msgs[0] in msgs && forall x :: x in rest ==> x in msgs;
      assert UpTo(msgs, i)[0] == msgs[0];
      if i > 0 {
        assert forall j :: 0 <= j < i - 1 ==> rest[j] == msgs[j + 1];
        assert i < |msgs| ==> rest[i - 1] == msgs[i];
        assert UpTo(msgs, i)[1..] == UpTo(rest, i - 1);
        if k >= n { CutThroughWanted(rest, i - 1, k - n, want, idOf); }
      } else {
        assert UpTo(msgs, 0)[1..] == [];
      }
    }
  }
}
