// Which driver answers for a bare session id (internal/service/service.go): existence first, the
// configured default as the tiebreak. A driver is what its State call answers.
module Resolve {
  import opened Fleet

  /** err == nil; ErrNoSuchSession; ErrUnsupported; anything else. */
  datatype Answer = Holds | NoSuchSession | Unsupported | OtherFailure

  datatype Via = Peer | Explicit | Sole | Existence | Default

  datatype Refusal = UnknownMachine | UnknownRuntime | NoLocalDrivers | SeveralClaim | NotConfirmed | UnregisteredDefault | Ambiguous

  datatype Resolution = Resolved(runtime: RuntimeId, via: Via) | Refused(refusal: Refusal)

  /** What is registered, and the configured default; "" is none. */
  datatype Config = Config(self: MachineId, peers: set<MachineId>, local: set<RuntimeId>, default_: RuntimeId)

  function Holders(local: set<RuntimeId>, answers: map<RuntimeId, Answer>): set<RuntimeId>
  {
    set rt | rt in local && rt in answers && answers[rt] == Holds
  }

  function Inconclusive(local: set<RuntimeId>, answers: map<RuntimeId, Answer>): set<RuntimeId>
  {
    set rt | rt in local && (rt !in answers || answers[rt] == OtherFailure)
  }

  /** A driver that gives no answer at all is one more failure. */
  method ProbeHolders(local: set<RuntimeId>, answers: map<RuntimeId, Answer>)
    returns (holders: set<RuntimeId>, inconclusive: set<RuntimeId>)
    ensures holders == Holders(local, answers) && inconclusive == Inconclusive(local, answers)
    ensures forall rt :: rt in holders <==> rt in local && rt in answers && answers[rt] == Holds
    ensures forall rt :: rt in inconclusive <==> rt in local && (rt !in answers || answers[rt] == OtherFailure)
  {
    holders, inconclusive := {}, {};
    var todo := local;
    while todo != {}
      invariant todo <= local
      invariant holders == Holders(local - todo, answers) && inconclusive == Inconclusive(local - todo, answers)
    {
      var rt :| rt in todo;
      todo := todo - {rt};
      var answer := if rt in answers then answers[rt] else OtherFailure;
      match answer {
        case Holds => holders := holders + {rt};
        case NoSuchSession =>
        case Unsupported =>
        case OtherFailure => inconclusive := inconclusive + {rt};
      }
    }
    assert local - todo == local;
  }

  /** r is a resolution of a bare id among several local drivers. */
  predicate IsBareResolution(c: Config, id: string, answers: map<RuntimeId, Answer>, r: Resolution)
  {
    var holders, inconclusive := Holders(c.local, answers), Inconclusive(c.local, answers);
    if id != "" && |holders| == 1 then r.Resolved? && r.via == Existence && r.runtime in holders
    else if id != "" && |holders| > 1 then r == Refused(SeveralClaim)
    else if id != "" && inconclusive != {} then r == Refused(NotConfirmed)
    else if c.default_ == "" then r == Refused(Ambiguous)
    else if c.default_ in c.local then r == Resolved(c.default_, Default)
    else r == Refused(UnregisteredDefault)
  }

  /** A machine of its own answers for itself; a runtime the caller names is taken at its word; a driver with
      no rival is not probed. */
  predicate IsResolution(c: Config, machine: MachineId, id: string, hint: RuntimeId, answers: map<RuntimeId, Answer>, r: Resolution)
  {
    if machine != c.self && machine != "" then r == if machine in c.peers then Resolved("", Peer) else Refused(UnknownMachine)
    else if hint != "" then r == if hint in c.local then Resolved(hint, Explicit) else Refused(UnknownRuntime)
    else if |c.local| == 0 then r == Refused(NoLocalDrivers)
    else if |c.local| == 1 then r.Resolved? && r.via == Sole && r.runtime in c.local
    else IsBareResolution(c, id, answers, r)
  }

  /** No driver lies about the id: owners are the runtimes that have it. */
  predicate Truthful(c: Config, answers: map<RuntimeId, Answer>, owners: set<RuntimeId>)
  {
    forall rt :: rt in c.local && rt in answers ==>
      (answers[rt] == Holds ==> rt in owners) && (answers[rt] == NoSuchSession || answers[rt] == Unsupported ==> rt !in owners)
  }

  /** A resolved id goes to a runtime that has it, or nobody has it and the default takes the miss; with every
      driver reached, one owner is found and several are refused; a default, or a refusal for want
      of one, means that nobody has it. */
  predicate NeverPastOwner(c: Config, answers: map<RuntimeId, Answer>, owners: set<RuntimeId>, r: Resolution)
  {
    && (r.Resolved? ==> r.runtime in owners || (owners == {} && r.via == Default))
    && (owners != {} && Inconclusive(c.local, answers) == {} ==>
          if |owners| == 1 then r.Resolved? && r.runtime in owners else r == Refused(SeveralClaim))
    && ((r.Resolved? && r.via == Default) || r == Refused(Ambiguous) || r == Refused(UnregisteredDefault) ==> owners == {})
  }

  /** A bare id that several drivers could answer for is resolved without loss, whoever really has it. */
  ghost predicate ResolvedFaithfully(c: Config, answers: map<RuntimeId, Answer>, r: Resolution)
  {
    forall owners: set<RuntimeId> :: owners <= c.local && Truthful(c, answers, owners) ==> NeverPastOwner(c, answers, owners, r)
  }

  method ResolveSessionDriver(c: Config, machine: MachineId, id: string, hint: RuntimeId, answers: map<RuntimeId, Answer>)
    returns (r: Resolution)
    ensures IsResolution(c, machine, id, hint, answers, r)
    ensures (machine == c.self || machine == "") && hint == "" && id != "" && |c.local| > 1 ==>
              ResolvedFaithfully(c, answers, r)
  {
    if machine != c.self && machine != "" {
      return if machine in c.peers then Resolved("", Peer) else Refused(UnknownMachine);
    }
    if hint != "" {
      return if hint in c.local then Resolved(hint, Explicit) else Refused(UnknownRuntime);
    }
    if |c.local| == 0 {
      return Refused(NoLocalDrivers);
    }
    if |c.local| == 1 {
      var rt :| rt in c.local;
      return Resolved(rt, Sole);
    }
    if id != "" {
      var holders, inconclusive := ProbeHolders(c.local, answers);
      if |holders| == 1 {
        var rt :| rt in holders;
        r := Resolved(rt, Existence);
        Faithful(c, id, answers, r);
        return;
      }
      if |holders| > 1 {
        r := Refused(SeveralClaim);
        Faithful(c, id, answers, r);
        return;
      }
      if |inconclusive| > 0 {
        r := Refused(NotConfirmed);
        Faithful(c, id, answers, r);
        return;
      }
    }
    r := if c.default_ == "" then Refused(Ambiguous)
         else if c.default_ in c.local then Resolved(c.default_, Default)
         else Refused(UnregisteredDefault);
    if id != "" {
      Faithful(c, id, answers, r);
    }
  }

  lemma OnlyElement(s: set<RuntimeId>, a: RuntimeId, b: RuntimeId)
    requires |s| == 1 && a in s && b in s
    ensures a == b
  {
    assert |s - {a}| == 0;
    assert b == a || b in s - {a};
  }

  /** The resolution is determined: iteration order over the drivers never shows. */
  lemma ResolutionIsDetermined(c: Config, machine: MachineId, id: string, hint: RuntimeId, answers: map<RuntimeId, Answer>,
                               r1: Resolution, r2: Resolution)
    requires IsResolution(c, machine, id, hint, answers, r1) && IsResolution(c, machine, id, hint, answers, r2)
    ensures r1 == r2
  {
    var holders := Holders(c.local, answers);
    if r1.Resolved? && r2.Resolved? && r1.via == r2.via == Sole {
      OnlyElement(c.local, r1.runtime, r2.runtime);
    } else if r1.Resolved? && r2.Resolved? && r1.via == r2.via == Existence {
      OnlyElement(holders, r1.runtime, r2.runtime);
    }
  }

  /** A bare id is never steered past its owner. Among several truthful drivers, a resolved id goes to a runtime
      that has it, or nobody has it and the default takes the miss. An unreachable driver may hide a second
      owner, never a first one. */
  lemma NoFalseAbsence(c: Config, id: string, answers: map<RuntimeId, Answer>, owners: set<RuntimeId>, r: Resolution)
    requires owners <= c.local && Truthful(c, answers, owners) && id != ""
    requires IsBareResolution(c, id, answers, r)
    ensures NeverPastOwner(c, answers, owners, r)
  {
    var holders, inconclusive := Holders(c.local, answers), Inconclusive(c.local, answers);
    assert holders <= owners;
    assert owners <= holders + inconclusive;
    if holders == {} && inconclusive == {} {
      assert owners == {};
    }
    if inconclusive == {} {
      assert owners == holders;
      assert |owners| == 0 ==> owners == {};
    }
    if id != "" && |holders| == 0 {
      assert holders == {};
    }
  }

  lemma Faithful(c: Config, id: string, answers: map<RuntimeId, Answer>, r: Resolution)
    requires id != "" && IsBareResolution(c, id, answers, r)
    ensures ResolvedFaithfully(c, answers, r)
  {
    forall owners: set<RuntimeId> | owners <= c.local && Truthful(c, answers, owners)
      ensures NeverPastOwner(c, answers, owners, r)
    {
      NoFalseAbsence(c, id, answers, owners, r);
    }
  }

  predicate Has(c: Config, answers: map<RuntimeId, Answer>, rt: RuntimeId)
  {
    rt in c.local && rt in answers && answers[rt] == Holds
  }

  predicate CannotSay(c: Config, answers: map<RuntimeId, Answer>, rt: RuntimeId)
  {
    rt in c.local && (rt !in answers || answers[rt] == OtherFailure)
  }

  lemma SizeSays(s: set<RuntimeId>)
    ensures |s| == 0 <==> forall p :: p !in s
    ensures |s| > 1 <==> exists p, q :: p in s && q in s && p != q
  {
    if |s| == 1 {
      forall p, q | p in s && q in s ensures p == q {
        OnlyElement(s, p, q);
      }
    } else if |s| > 1 {
      var p :| p in s;
      assert |s - {p}| > 0;
      var q :| q in s - {p};
    }
  }

  /** What becomes of a bare id among several drivers, by their answers alone: it goes to the one that has it; when
      several have it, it is refused; when none has it, one driver that cannot say is enough to refuse it. */
  lemma BareIdGoes(c: Config, id: string, answers: map<RuntimeId, Answer>, r: Resolution)
    requires id != "" && IsBareResolution(c, id, answers, r)
    ensures r.Resolved? && r.via == Existence <==>
              exists p :: Has(c, answers, p) && r == Resolved(p, Existence) && forall q :: Has(c, answers, q) ==> q == p
    ensures r == Refused(SeveralClaim) <==> exists p, q :: Has(c, answers, p) && Has(c, answers, q) && p != q
    ensures r == Refused(NotConfirmed) <==> (forall p :: !Has(c, answers, p)) && exists p :: CannotSay(c, answers, p)
  {
    hide *;
    OneHasIt(c, id, answers, r);
    SeveralHaveIt(c, id, answers, r);
    NoneHasIt(c, id, answers, r);
  }

  lemma HoldersHave(c: Config, answers: map<RuntimeId, Answer>)
    ensures forall p :: p in Holders(c.local, answers) <==> Has(c, answers, p)
    ensures forall p :: p in Inconclusive(c.local, answers) <==> CannotSay(c, answers, p)
  {
  }

  lemma OneHasIt(c: Config, id: string, answers: map<RuntimeId, Answer>, r: Resolution)
    requires id != "" && IsBareResolution(c, id, answers, r)
    ensures r.Resolved? && r.via == Existence <==>
              exists p :: Has(c, answers, p) && r == Resolved(p, Existence) && forall q :: Has(c, answers, q) ==> q == p
  {
    hide *;
    BareCases(c, id, answers, r);
    HoldersHave(c, answers);
    var holders := Holders(c.local, answers);
    if r.Resolved? && r.via == Existence {
      forall q | Has(c, answers, q) ensures q == r.runtime {
        OnlyElement(holders, q, r.runtime);
      }
    }
  }

  lemma SeveralHaveIt(c: Config, id: string, answers: map<RuntimeId, Answer>, r: Resolution)
    requires id != "" && IsBareResolution(c, id, answers, r)
    ensures r == Refused(SeveralClaim) <==> exists p, q :: Has(c, answers, p) && Has(c, answers, q) && p != q
  {
    hide *;
    BareCases(c, id, answers, r);
    HoldersHave(c, answers);
    var holders := Holders(c.local, answers);
    SizeSays(holders);
    if r == Refused(SeveralClaim) {
      var p, q :| p in holders && q in holders && p != q;
      assert Has(c, answers, p) && Has(c, answers, q);
    }
  }

  lemma NoneHasIt(c: Config, id: string, answers: map<RuntimeId, Answer>, r: Resolution)
    requires id != "" && IsBareResolution(c, id, answers, r)
    ensures r == Refused(NotConfirmed) <==> (forall p :: !Has(c, answers, p)) && exists p :: CannotSay(c, answers, p)
  {
    hide *;
    BareCases(c, id, answers, r);
    HoldersHave(c, answers);
    var holders, inconclusive := Holders(c.local, answers), Inconclusive(c.local, answers);
    SizeSays(holders);
    if inconclusive != {} {
      var p :| p in inconclusive;
      assert CannotSay(c, answers, p);
    }
  }

  lemma BareCases(c: Config, id: string, answers: map<RuntimeId, Answer>, r: Resolution)
    requires id != "" && IsBareResolution(c, id, answers, r)
    ensures var holders := Holders(c.local, answers);
            && (r.Resolved? && r.via == Existence ==> r.runtime in holders)
            && (r.Resolved? && r.via == Existence <==> |holders| == 1)
            && (r == Refused(SeveralClaim) <==> |holders| > 1)
            && (r == Refused(NotConfirmed) <==> |holders| == 0 && Inconclusive(c.local, answers) != {})
  {
  }

  /** When every driver answers, and none has the id, be it for want of the session or of support, a registered default
      answers for it. */
  lemma MissGoesToDefault(c: Config, id: string, answers: map<RuntimeId, Answer>, r: Resolution)
    requires IsBareResolution(c, id, answers, r)
    requires forall rt :: rt in c.local ==> rt in answers && (answers[rt] == NoSuchSession || answers[rt] == Unsupported)
    ensures r == if c.default_ == "" then Refused(Ambiguous)
                 else if c.default_ in c.local then Resolved(c.default_, Default)
                 else Refused(UnregisteredDefault)
  {
    assert Holders(c.local, answers) == {} && Inconclusive(c.local, answers) == {};
  }

  /** Once any driver affirms the id, or cannot be asked, the configured default cannot change where it goes. */
  lemma DefaultIsOnlyATiebreak(c: Config, id: string, answers: map<RuntimeId, Answer>, other: RuntimeId, r: Resolution)
    requires id != "" && Holders(c.local, answers) + Inconclusive(c.local, answers) != {}
    ensures IsBareResolution(c, id, answers, r) <==> IsBareResolution(c.(default_ := other), id, answers, r)
  {
    var holders := Holders(c.local, answers);
    if |holders| == 0 {
      assert holders == {};
    }
  }
}
