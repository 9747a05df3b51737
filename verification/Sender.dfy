// The sender's name (internal/inboxclient/sender.go): what is put on the wire must come back unchanged
// from the receiver's own normaliser. Strings are sequences of runes; the Unicode tables are a parameter.
module Sender {
  import opened Seqs

  /** General categories, as far as the code distinguishes them. Plain is every other assigned one. */
  datatype Category = Format | Control | Surrogate | LineSeparator | ParagraphSeparator | Space | Unassigned | Plain

  type Tables = char -> Category

  const NAME_CAP := 64
  const ELLIPSIS: char := '\U{2026}'

  /** What the tables say of the runes the code names. */
  ghost predicate Faithful(t: Tables)
  {
    t(ELLIPSIS) == Plain && t('\n') == Control && t('\r') == Control
  }

  predicate IsInvisible(t: Tables, r: char)
  {
    t(r) in {Format, Control, Surrogate, LineSeparator, ParagraphSeparator}
  }

  predicate IsReceiverSpace(t: Tables, r: char)
  {
    t(r) == Space
  }

  predicate IsAssigned(t: Tables, r: char)
  {
    t(r) != Unassigned
  }

  predicate IsBracket(r: char)
  {
    r == '"' || r == '<' || r == '>'
  }

  function Survives(t: Tables): char -> bool
  {
    r => !IsBracket(r) && !IsInvisible(t, r)
  }

  function TrimLeft(t: Tables, s: string): string
  {
    if s != "" && IsReceiverSpace(t, s[0]) then TrimLeft(t, s[1..]) else s
  }

  function TrimRight(t: Tables, s: string): string
  {
    if s != "" && IsReceiverSpace(t, s[|s| - 1]) then TrimRight(t, s[..|s| - 1]) else s
  }

  function Trim(t: Tables, s: string): string
  {
    TrimRight(t, TrimLeft(t, s))
  }

  function Cleaned(t: Tables, raw: string): string
  {
    Trim(t, Filter(Survives(t), raw))
  }

  /** receiverNormalise: strip, trim, and past the cap cut and append an ellipsis. */
  function ReceiverNormalise(t: Tables, raw: string): string
  {
    var s := Cleaned(t, raw);
    if |s| > NAME_CAP then s[..NAME_CAP] + [ELLIPSIS] else s
  }

  /** Cut one short, so that the ellipsis lands inside the cap. */
  function Shortened(t: Tables, name: string): string
  {
    if |name| > NAME_CAP then TrimRight(t, name[..NAME_CAP - 1]) + [ELLIPSIS] else name
  }

  predicate AllAssigned(t: Tables, s: string)
  {
    forall i :: 0 <= i < |s| ==> IsAssigned(t, s[i])
  }

  predicate HasForbidden(s: string)
  {
    exists i :: 0 <= i < |s| && (IsBracket(s[i]) || s[i] == '\n' || s[i] == '\r')
  }

  function SenderName(t: Tables, raw: string): string
  {
    var name := Shortened(t, ReceiverNormalise(t, raw));
    if ReceiverNormalise(t, raw) == "" then ""
    else if !AllAssigned(t, name) then ""
    else if ReceiverNormalise(t, name) != name || HasForbidden(name) then ""
    else name
  }

  // ---- trimming ------------------------------------------------------------

  /** Nothing left to trim. */
  predicate Tight(t: Tables, s: string)
  {
    s != "" ==> !IsReceiverSpace(t, s[0]) && !IsReceiverSpace(t, s[|s| - 1])
  }

  lemma {:induction false} TrimLeftIsSuffix(t: Tables, s: string)
    ensures var u := TrimLeft(t, s);
            && |u| <= |s| && u == s[|s| - |u|..]
            && (u != "" ==> !IsReceiverSpace(t, u[0]))
  {
    if s != "" && IsReceiverSpace(t, s[0]) {
      TrimLeftIsSuffix(t, s[1..]);
    }
  }

  lemma {:induction false} TrimRightIsPrefix(t: Tables, s: string)
    ensures var u := TrimRight(t, s);
            && u <= s
            && (u != "" ==> !IsReceiverSpace(t, u[|u| - 1]))
            && (s != "" && !IsReceiverSpace(t, s[0]) ==> u != "")
    decreases |s|
  {
    if s != "" && IsReceiverSpace(t, s[|s| - 1]) {
      TrimRightIsPrefix(t, s[..|s| - 1]);
    }
  }

  lemma TrimIsTight(t: Tables, s: string)
    ensures Tight(t, Trim(t, s)) && forall r :: r in Trim(t, s) ==> r in s
  {
    TrimLeftIsSuffix(t, s);
    TrimRightIsPrefix(t, TrimLeft(t, s));
  }

  /** A string of surviving runes with nothing to trim is left as it is, up to the cap. */
  lemma CleanIsKept(t: Tables, s: string)
    requires Tight(t, s) && forall r :: r in s ==> Survives(t)(r)
    ensures Cleaned(t, s) == s
  {
    FilterAll(Survives(t), s);
  }

  lemma CleanedIsClean(t: Tables, raw: string)
    ensures Tight(t, Cleaned(t, raw)) && forall r :: r in Cleaned(t, raw) ==> Survives(t)(r)
  {
    FilterMembers(Survives(t), raw);
    TrimIsTight(t, Filter(Survives(t), raw));
  }

  // ---- fixed points --------------------------------------------------------

  lemma EllipsisSurvives(t: Tables, s: string)
    requires Faithful(t) && s != "" && !IsReceiverSpace(t, s[0]) && forall r :: r in s ==> Survives(t)(r)
    ensures Tight(t, s + [ELLIPSIS]) && forall r :: r in s + [ELLIPSIS] ==> Survives(t)(r)
  {
  }

  /** The receiver's normaliser is idempotent. */
  lemma NormaliseIdempotent(t: Tables, raw: string)
    requires Faithful(t)
    ensures ReceiverNormalise(t, ReceiverNormalise(t, raw)) == ReceiverNormalise(t, raw)
  {
    var s := Cleaned(t, raw);
    CleanedIsClean(t, raw);
    if |s| > NAME_CAP {
      var cut := s[..NAME_CAP];
      EllipsisSurvives(t, cut);
      CleanIsKept(t, cut + [ELLIPSIS]);
      assert (cut + [ELLIPSIS])[..NAME_CAP] == cut;
    } else {
      CleanIsKept(t, s);
    }
  }

  /** The name the code builds, before its guards: short, clean and a fixed point. */
  lemma ShortenedIsFixed(t: Tables, raw: string)
    requires Faithful(t)
    ensures var name := Shortened(t, ReceiverNormalise(t, raw));
            && |name| <= NAME_CAP
            && ReceiverNormalise(t, name) == name
            && (forall r :: r in name ==> Survives(t)(r))
            && (name == "" <==> ReceiverNormalise(t, raw) == "")
  {
    var s := Cleaned(t, raw);
    CleanedIsClean(t, raw);
    if |s| > NAME_CAP {
      var long := s[..NAME_CAP] + [ELLIPSIS];
      var cut := s[..NAME_CAP - 1];
      assert long[..NAME_CAP - 1] == cut && cut[0] == s[0];
      TrimRightIsPrefix(t, cut);
      var short := TrimRight(t, cut);
      assert forall r :: r in short ==> r in cut && r in s;
      EllipsisSurvives(t, short);
      CleanIsKept(t, short + [ELLIPSIS]);
    } else {
      CleanIsKept(t, s);
    }
  }

  /** Every name sent is the receiver's own rendering of it, at most 64 runes, all assigned, none that the
      envelope uses. */
  lemma SenderNameIsFixed(t: Tables, raw: string)
    requires Faithful(t)
    ensures var name := SenderName(t, raw);
            && |name| <= NAME_CAP && ReceiverNormalise(t, name) == name
            && AllAssigned(t, name) && !HasForbidden(name)
            && (forall r :: r in name ==> Survives(t)(r))
  {
    ShortenedIsFixed(t, raw);
    assert ReceiverNormalise(t, "") == "" by {
      CleanIsKept(t, "");
    }
  }

  /** Rune by rune: all assigned and visible, no quote, bracket or line break, no space at either end. */
  lemma SentNameIsPlain(t: Tables, raw: string)
    requires Faithful(t)
    ensures var name := SenderName(t, raw);
            && |name| <= 64
            && (forall i :: 0 <= i < |name| ==>
                  && name[i] != '"' && name[i] != '<' && name[i] != '>' && name[i] != '\n' && name[i] != '\r'
                  && t(name[i]) !in {Format, Control, Surrogate, LineSeparator, ParagraphSeparator, Unassigned})
            && (name != "" ==> t(name[0]) != Space && t(name[|name| - 1]) != Space)
  {
    var name := SenderName(t, raw);
    SenderNameIsFixed(t, raw);
    NormalIsTight(t, name);
    hide SenderName, ReceiverNormalise;
    forall i | 0 <= i < |name|
      ensures && name[i] != '"' && name[i] != '<' && name[i] != '>' && name[i] != '\n' && name[i] != '\r'
              && t(name[i]) !in {Format, Control, Surrogate, LineSeparator, ParagraphSeparator, Unassigned}
    {
      assert name[i] in name && Survives(t)(name[i]) && IsAssigned(t, name[i]);
    }
  }

  /** A fixed point of the receiver's that fits is clean. */
  lemma NormalIsTight(t: Tables, name: string)
    requires ReceiverNormalise(t, name) == name && |name| <= NAME_CAP
    ensures Tight(t, name)
  {
    CleanedIsClean(t, name);
    hide Cleaned;
  }

  /** The last guard never fires: a name is dropped only when nothing survives, or some rune of what is
      left is unassigned. */
  lemma LastGuardNeverFires(t: Tables, raw: string)
    requires Faithful(t)
    ensures var name := Shortened(t, ReceiverNormalise(t, raw));
            && ReceiverNormalise(t, name) == name && !HasForbidden(name)
            && (SenderName(t, raw) == "" <==> ReceiverNormalise(t, raw) == "" || !AllAssigned(t, name))
            && (SenderName(t, raw) != "" ==> SenderName(t, raw) == name)
  {
    ShortenedIsFixed(t, raw);
    var name := Shortened(t, ReceiverNormalise(t, raw));
    forall i | 0 <= i < |name| ensures !IsBracket(name[i]) && name[i] != '\n' && name[i] != '\r' {
      assert name[i] in name && Survives(t)(name[i]);
    }
  }

  /** A name that was already the receiver's and fits is sent unchanged. */
  lemma FittingNameIsSent(t: Tables, name: string)
    requires Faithful(t) && ReceiverNormalise(t, name) == name && |name| <= NAME_CAP && AllAssigned(t, name)
    ensures SenderName(t, name) == name
  {
    LastGuardNeverFires(t, name);
  }

  /** And what is such a name already is sent as it is. */
  lemma PlainNameIsSent(t: Tables, name: string)
    requires Faithful(t) && |name| <= 64
    requires forall i :: 0 <= i < |name| ==>
               && name[i] != '"' && name[i] != '<' && name[i] != '>'
               && t(name[i]) !in {Format, Control, Surrogate, LineSeparator, ParagraphSeparator, Unassigned}
    requires name != "" ==> t(name[0]) != Space && t(name[|name| - 1]) != Space
    ensures SenderName(t, name) == name
  {
    forall r | r in name ensures Survives(t)(r) {
      var i :| 0 <= i < |name| && name[i] == r;
    }
    CleanIsKept(t, name);
    FittingNameIsSent(t, name);
  }

  /** A longer one is sent as its first 63 runes, less spaces at the cut, and an ellipsis. */
  lemma LongNameIsCut(t: Tables, name: string)
    requires Faithful(t) && |name| > 64
    requires forall i :: 0 <= i < |name| ==>
               && name[i] != '"' && name[i] != '<' && name[i] != '>'
               && t(name[i]) !in {Format, Control, Surrogate, LineSeparator, ParagraphSeparator, Unassigned}
    requires t(name[0]) != Space && t(name[|name| - 1]) != Space
    ensures exists kept :: 0 < kept <= 63 && SenderName(t, name) == name[..kept] + ['\U{2026}']
              && t(name[kept - 1]) != Space && forall i :: kept <= i < 63 ==> t(name[i]) == Space
  {
    var kept := TrimRight(t, name[..63]);
    CutOf(t, name);
    LastGuardNeverFires(t, name);
    var sent := kept + [ELLIPSIS];
    assert Shortened(t, ReceiverNormalise(t, name)) == sent;
    hide ReceiverNormalise, Shortened, SenderName, HasForbidden, TrimRight;
    assert kept == name[..|kept|];
    assert AllAssigned(t, sent);
    assert SenderName(t, name) == name[..|kept|] + ['\U{2026}'];
    assert kept[|kept| - 1] == name[|kept| - 1];
  }

  lemma CutOf(t: Tables, name: string)
    requires Faithful(t) && |name| > 64 && t(name[0]) != Space && t(name[|name| - 1]) != Space
    requires forall i :: 0 <= i < |name| ==>
               && name[i] != '"' && name[i] != '<' && name[i] != '>'
               && t(name[i]) !in {Format, Control, Surrogate, LineSeparator, ParagraphSeparator, Unassigned}
    ensures var kept := TrimRight(t, name[..63]);
            && 0 < |kept| <= 63 && kept <= name && t(kept[|kept| - 1]) != Space
            && (forall i :: |kept| <= i < 63 ==> t(name[i]) == Space)
            && ReceiverNormalise(t, name) == name[..64] + [ELLIPSIS]
            && Shortened(t, ReceiverNormalise(t, name)) == kept + [ELLIPSIS]
  {
    forall r | r in name ensures Survives(t)(r) {
      var i :| 0 <= i < |name| && name[i] == r;
    }
    CleanIsKept(t, name);
    hide Cleaned;
    var cut := name[..63];
    assert (name[..64] + [ELLIPSIS])[..63] == cut;
    TrimRightIsPrefix(t, cut);
    TrimRightDropsSpaces(t, cut);
    assert cut[0] == name[0];
    assert forall i :: 0 <= i < 63 ==> cut[i] == name[i];
    hide TrimRight;
  }

  lemma {:induction false} TrimRightDropsSpaces(t: Tables, s: string)
    ensures |TrimRight(t, s)| <= |s| && forall i :: |TrimRight(t, s)| <= i < |s| ==> t(s[i]) == Space
    decreases |s|
  {
    if s != "" && IsReceiverSpace(t, s[|s| - 1]) {
      TrimRightDropsSpaces(t, s[..|s| - 1]);
    }
  }

  // ---- the receiver's tables may be newer ----------------------------------

  /** Newer tables only give categories to runes that had none. */
  ghost predicate Extends(newer: Tables, t: Tables)
  {
    forall r :: t(r) != Unassigned ==> newer(r) == t(r)
  }

  /** Refusing unassigned runes is exactly what makes a name safe under every newer table: a name without
      them is a fixed point under all, and one with them is changed by some. */
  lemma AssignedIsSafeUnderNewerTables(t: Tables, raw: string, newer: Tables)
    requires Faithful(t) && Extends(newer, t)
    ensures Faithful(newer) && ReceiverNormalise(newer, SenderName(t, raw)) == SenderName(t, raw)
  {
    var name := SenderName(t, raw);
    SenderNameIsFixed(t, raw);
    CleanedIsClean(t, name);
    assert Tight(t, name) by {
      assert Cleaned(t, name) == name;
    }
    forall r | r in name ensures newer(r) == t(r) {
      var i :| 0 <= i < |name| && name[i] == r;
      assert IsAssigned(t, name[i]);
    }
    assert Tight(newer, name) && forall r :: r in name ==> Survives(newer)(r);
    CleanIsKept(newer, name);
  }

  lemma UnassignedIsUnsafe(t: Tables, name: string) returns (newer: Tables)
    requires Faithful(t) && !AllAssigned(t, name)
    ensures Extends(newer, t) && ReceiverNormalise(newer, name) != name
  {
    newer := (r: char) => if t(r) == Unassigned then Format else t(r);
    var i :| 0 <= i < |name| && t(name[i]) == Unassigned;
    CleanedIsClean(newer, name);
    var s := Cleaned(newer, name);
    assert !Survives(newer)(name[i]) && name[i] !in s && name[i] != ELLIPSIS;
    assert name[i] in name;
    assert name[i] !in ReceiverNormalise(newer, name);
  }
}
