// The envelope (internal/inboxclient/attest.go): what is printed parses back to what was meant, and the
// receiver's rebuild of it is the same string. The receiver's own code is not part of this model; it
// appears as a parser of the envelope's grammar and an escaper that cannot fire without a lookalike.
module Attest {
  import opened Fleet
  import opened Sender

  const MODE_BYPASS := "bypass"
  const MODE_PROMPTING := "prompting"

  predicate ValidClass(c: string)
  {
    c == MODE_BYPASS || c == MODE_PROMPTING
  }

  /** The opening bracket and everything the receiver folds onto it. */
  const OPEN_LOOKALIKES: seq<char> :=
    ['<', '\U{FF1C}', '\U{FE64}', '\U{2329}', '\U{27E8}', '\U{3008}', '\U{2039}', '\U{02C2}', '\U{1438}',
     '\U{276C}', '\U{276E}', '\U{2770}', '\U{29FC}', '\U{226E}', '\U{227A}', '\U{22D6}']

  /** Contains none of them. */
  predicate BodyAttestable(text: string)
  {
    forall i :: 0 <= i < |text| ==> text[i] !in OPEN_LOOKALIKES
  }

  const OPEN := "<cross-session-message"
  const CLOSE := "\n</cross-session-message>"
  const NAME_ATTR := " from-name=\""
  const MODE_ATTR := " from-mode=\""
  const HEADER_END := "\">\n"

  /** What an envelope says. The empty name stands for none. */
  datatype Envelope = Envelope(name: string, class_: string, body: string)

  /** The class, and everything after it. */
  function PrintMode(class_: string, body: string): string
  {
    MODE_ATTR + (class_ + (HEADER_END + (body + CLOSE)))
  }

  /** The name, if there is one, before the class: the receiver's own order. */
  function PrintName(name: string, rest: string): string
  {
    if name == "" then rest else NAME_ATTR + (name + ("\"" + rest))
  }

  function Print(e: Envelope): string
  {
    OPEN + PrintName(e.name, PrintMode(e.class_, e.body))
  }

  function Attest(t: Tables, text: string, class_: string, name: string): Option<string>
  {
    if !ValidClass(class_) then None
    else if !BodyAttestable(text) then None
    else Some(Print(Envelope(SenderName(t, name), class_, text)))
  }

  // ---- the receiver --------------------------------------------------------

  /** s without the prefix, if it has it. */
  function Following(prefix: string, s: string): Option<string>
  {
    if prefix <= s then Some(s[|prefix|..]) else None
  }

  /** How far s goes before the first stop, or to its end. */
  function Span(stop: char, s: string): (n: nat)
    ensures n <= |s| && (forall i :: 0 <= i < n ==> s[i] != stop) && (n < |s| ==> s[n] == stop)
  {
    if s == "" || s[0] == stop then 0 else 1 + Span(stop, s[1..])
  }

  /** An attribute's value, up to the closing quote, and what follows the value. */
  function Quoted(s: string): (string, string)
  {
    (s[..Span('"', s)], s[Span('"', s)..])
  }

  /** An optional name, a class, and a body that ends at the first opening bracket. A present name is not empty. */
  function Parse(s: string): Option<Envelope>
  {
    var h := Following(OPEN, s);
    if h.None? then None else
    var named := Following(NAME_ATTR, h.value);
    if named.None? then ParseMode("", h.value) else
    var (name, rest) := Quoted(named.value);
    if name == "" || rest == "" then None else ParseMode(name, rest[1..])
  }

  function ParseMode(name: string, s: string): Option<Envelope>
  {
    var m := Following(MODE_ATTR, s);
    if m.None? then None else
    var (class_, rest) := Quoted(m.value);
    var b := Following(HEADER_END, rest);
    if b.None? then None else ParseBody(name, class_, b.value)
  }

  function ParseBody(name: string, class_: string, s: string): Option<Envelope>
  {
    var n := Span('<', s);
    if n > 0 && s[n - 1..] == CLOSE then Some(Envelope(name, class_, s[..n - 1])) else None
  }

  /** What the receiver builds from an envelope it parsed: its normaliser on the name, its escaper on the body. */
  function Rebuild(t: Tables, escape: string -> string, e: Envelope): string
  {
    Print(Envelope(ReceiverNormalise(t, e.name), e.class_, escape(e.body)))
  }

  /** An escaper's pattern starts with a lookalike. */
  ghost predicate NeedsLookalike(escape: string -> string)
  {
    forall body :: BodyAttestable(body) ==> escape(body) == body
  }

  // ---- printing and parsing ------------------------------------------------

  /** Fields that print unambiguously. */
  predicate Printable(e: Envelope)
  {
    && (forall i :: 0 <= i < |e.name| ==> e.name[i] != '"')
    && (forall i :: 0 <= i < |e.class_| ==> e.class_[i] != '"')
    && (forall i :: 0 <= i < |e.body| ==> e.body[i] != '<')
  }

  lemma {:induction false} SpanStops(stop: char, a: string, b: string)
    requires forall i :: 0 <= i < |a| ==> a[i] != stop
    requires b != "" && b[0] == stop
    ensures Span(stop, a + b) == |a|
  {
    assert (a + b)[|a|] == stop;
  }

  lemma QuotedIs(a: string, b: string)
    requires forall i :: 0 <= i < |a| ==> a[i] != '"'
    requires b != "" && b[0] == '"'
    ensures Quoted(a + b) == (a, b)
  {
    SpanStops('"', a, b);
  }

  lemma FollowingIs(prefix: string, s: string)
    ensures Following(prefix, prefix + s) == Some(s)
  {
  }

  lemma ParseBodyIs(name: string, class_: string, body: string)
    requires forall i :: 0 <= i < |body| ==> body[i] != '<'
    ensures ParseBody(name, class_, body + CLOSE) == Some(Envelope(name, class_, body))
  {
    var rest := CLOSE[1..];
    assert CLOSE == "\n" + rest && rest[0] == '<';
    assert body + CLOSE == (body + "\n") + rest;
    SpanStops('<', body + "\n", rest);
    assert (body + CLOSE)[|body|..] == CLOSE;
  }

  lemma ParseModeIs(name: string, class_: string, body: string)
    requires forall i :: 0 <= i < |class_| ==> class_[i] != '"'
    requires forall i :: 0 <= i < |body| ==> body[i] != '<'
    ensures ParseMode(name, PrintMode(class_, body)) == Some(Envelope(name, class_, body))
  {
    var tail := HEADER_END + (body + CLOSE);
    FollowingIs(MODE_ATTR, class_ + tail);
    assert tail[0] == HEADER_END[0] == '"';
    QuotedIs(class_, tail);
    FollowingIs(HEADER_END, body + CLOSE);
    ParseBodyIs(name, class_, body);
    hide Following, Quoted, ParseBody;
  }

  /** The class attribute is not taken for a name. */
  lemma ModeIsNoName(class_: string, body: string)
    ensures Following(NAME_ATTR, PrintMode(class_, body)) == None
  {
    var s := PrintMode(class_, body);
    assert s[6] == MODE_ATTR[6] == 'm' && NAME_ATTR[6] == 'n';
  }

  /** What is printed parses back to what was meant. */
  lemma ParsePrint(e: Envelope)
    requires Printable(e)
    ensures Parse(Print(e)) == Some(e)
  {
    var mode := PrintMode(e.class_, e.body);
    ParseModeIs(e.name, e.class_, e.body);
    ModeIsNoName(e.class_, e.body);
    FollowingIs(OPEN, PrintName(e.name, mode));
    if e.name != "" {
      var rest := "\"" + mode;
      FollowingIs(NAME_ATTR, e.name + rest);
      QuotedIs(e.name, rest);
      assert rest[1..] == mode;
    }
    hide Following, Quoted, ParseMode, PrintMode;
  }

  lemma FollowingSplits(prefix: string, s: string)
    ensures Following(prefix, s).Some? ==> s == prefix + Following(prefix, s).value
  {
  }

  lemma QuotedSplits(s: string)
    ensures Quoted(s).0 + Quoted(s).1 == s
    ensures Quoted(s).1 != "" ==> Quoted(s).1 == "\"" + Quoted(s).1[1..]
    ensures forall i :: 0 <= i < |Quoted(s).0| ==> Quoted(s).0[i] != '"'
  {
  }

  lemma PrintParseBody(name: string, class_: string, s: string)
    requires ParseBody(name, class_, s).Some?
    ensures var e := ParseBody(name, class_, s).value;
            e.name == name && e.class_ == class_ && s == e.body + CLOSE && forall i :: 0 <= i < |e.body| ==> e.body[i] != '<'
  {
    var n := Span('<', s);
    assert s == s[..n - 1] + s[n - 1..];
  }

  lemma PrintParseMode(name: string, s: string)
    requires ParseMode(name, s).Some?
    ensures var e := ParseMode(name, s).value;
            && Printable(e.(name := ""))
            && e.name == name && s == PrintMode(e.class_, e.body)
  {
    FollowingSplits(MODE_ATTR, s);
    var m := Following(MODE_ATTR, s).value;
    QuotedSplits(m);
    FollowingSplits(HEADER_END, Quoted(m).1);
    PrintParseBody(name, Quoted(m).0, Following(HEADER_END, Quoted(m).1).value);
    hide Quoted, Following, ParseBody;
  }

  /** And whatever parses prints back to the same string. */
  lemma PrintParse(s: string)
    requires Parse(s).Some?
    ensures Printable(Parse(s).value) && Print(Parse(s).value) == s
  {
    FollowingSplits(OPEN, s);
    var h := Following(OPEN, s).value;
    var named := Following(NAME_ATTR, h);
    if named.None? {
      PrintParseMode("", h);
    } else {
      PrintParseName(h, named.value);
    }
    hide Following, Quoted, ParseMode, PrintMode;
  }

  lemma PrintParseName(h: string, named: string)
    requires Following(NAME_ATTR, h) == Some(named)
    requires var (name, rest) := Quoted(named); name != "" && rest != "" && ParseMode(name, rest[1..]).Some?
    ensures var (name, rest) := Quoted(named);
            var e := ParseMode(name, rest[1..]).value;
            e.name == name && Printable(e) && h == PrintName(e.name, PrintMode(e.class_, e.body))
  {
    FollowingSplits(NAME_ATTR, h);
    QuotedSplits(named);
    PrintParseMode(Quoted(named).0, Quoted(named).1[1..]);
    hide Following, Quoted, ParseMode, PrintMode;
  }

  // ---- what attesting promises ---------------------------------------------

  /** Text is attested exactly under one of the two classes and when it has none of the sixteen runes the receiver
      reads as an opening bracket; the name never decides. */
  lemma AttestsIff(t: Tables, text: string, class_: string, name: string)
    ensures Attest(t, text, class_, name).Some? <==>
              && (class_ == "bypass" || class_ == "prompting")
              && forall i :: 0 <= i < |text| ==>
                   && text[i] != '<' && text[i] != '\U{FF1C}' && text[i] != '\U{FE64}' && text[i] != '\U{2329}'
                   && text[i] != '\U{27E8}' && text[i] != '\U{3008}' && text[i] != '\U{2039}' && text[i] != '\U{02C2}'
                   && text[i] != '\U{1438}' && text[i] != '\U{276C}' && text[i] != '\U{276E}' && text[i] != '\U{2770}'
                   && text[i] != '\U{29FC}' && text[i] != '\U{226E}' && text[i] != '\U{227A}' && text[i] != '\U{22D6}'
  {
    forall r: char ensures r in OPEN_LOOKALIKES <==> IsLookalike(r) {
      LookalikesAre(r);
    }
    hide SenderName, Print;
  }

  predicate IsLookalike(r: char)
  {
    r in {'<', '\U{FF1C}', '\U{FE64}', '\U{2329}', '\U{27E8}', '\U{3008}', '\U{2039}', '\U{02C2}',
          '\U{1438}', '\U{276C}', '\U{276E}', '\U{2770}', '\U{29FC}', '\U{226E}', '\U{227A}', '\U{22D6}'}
  }

  lemma LookalikesAre(r: char)
    ensures r in OPEN_LOOKALIKES <==> IsLookalike(r)
  {
    var c := OPEN_LOOKALIKES;
    assert c == [c[0], c[1], c[2], c[3], c[4], c[5], c[6], c[7], c[8], c[9], c[10], c[11], c[12], c[13], c[14], c[15]];
  }

  /** The string that is sent, character by character. */
  lemma AttestedReads(t: Tables, text: string, class_: string, name: string)
    requires Attest(t, text, class_, name).Some?
    ensures var sent := SenderName(t, name);
            var rest := " from-mode=\"" + (class_ + ("\">\n" + (text + "\n</cross-session-message>")));
            Attest(t, text, class_, name).value
              == "<cross-session-message" + if sent == "" then rest else " from-name=\"" + (sent + ("\"" + rest))
  {
    hide SenderName, BodyAttestable;
  }

  lemma AttestedIsPrintable(t: Tables, text: string, class_: string, name: string)
    requires Faithful(t) && ValidClass(class_) && BodyAttestable(text)
    ensures Printable(Envelope(SenderName(t, name), class_, text))
  {
    SenderNameIsFixed(t, name);
    assert OPEN_LOOKALIKES[0] == '<';
    forall i | 0 <= i < |text| ensures text[i] != '<' {
      assert text[i] !in OPEN_LOOKALIKES;
    }
  }

  /** The receiver reads exactly the text, the class and the normalised name, and its rebuild is the very
      string that arrived: whatever its tables add to ours, and whatever its escaper does to lookalikes. */
  lemma AttestedSurvives(t: Tables, receiver: Tables, escape: string -> string, text: string, class_: string, name: string)
    requires Faithful(t) && Extends(receiver, t) && NeedsLookalike(escape)
    requires Attest(t, text, class_, name).Some?
    ensures var wire := Attest(t, text, class_, name).value;
            && Parse(wire) == Some(Envelope(SenderName(t, name), class_, text))
            && Rebuild(receiver, escape, Parse(wire).value) == wire
  {
    AttestedIsPrintable(t, text, class_, name);
    ParsePrint(Envelope(SenderName(t, name), class_, text));
    AssignedIsSafeUnderNewerTables(t, name, receiver);
  }
}
