/**
 * The business-visible phase of a member's auction task
 * (auction-client AuctionPhase): four constants, each carrying its name.
 */
module AuctionPhases {
  import opened Wrappers

  datatype AuctionPhase = Registration | Running | Completion | Abortion

  /** The phases in declaration order, as `values()` returns them. */
  const Values: seq<AuctionPhase> := [Registration, Running, Completion, Abortion]

  /** The name stored with each phase; it is the identifier itself. */
  function Name(p: AuctionPhase): (s: string)
    ensures |s| > 0
  {
    match p
    case Registration => "Registration"
    case Running => "Running"
    case Completion => "Completion"
    case Abortion => "Abortion"
  }

  /** First phase of `candidates` whose name equals `s`, searching left to right. */
  function FirstMatch(candidates: seq<AuctionPhase>, s: string): (r: Option<AuctionPhase>)
    ensures r.Some? ==> Name(r.value) == s
    ensures r.Some? ==> exists i :: 0 <= i < |candidates| && candidates[i] == r.value &&
                                    forall j :: 0 <= j < i ==> Name(candidates[j]) != s
    ensures r.None? <==> forall i :: 0 <= i < |candidates| ==> Name(candidates[i]) != s
  {
    if candidates == [] then None
    else if Name(candidates[0]) == s then Some(candidates[0])
    else FirstMatch(candidates[1..], s)
  }

  /**
   * `fromString`: the first phase, in declaration order, whose name matches `s`,
   * or `None` (Java's null) when no name matches.
   */
  function FromString(s: string): (r: Option<AuctionPhase>)
    ensures r.Some? ==> Name(r.value) == s
  {
    FirstMatch(Values, s)
  }

  /** Every phase occurs in `Values`, exactly once, so the search covers all four. */
  lemma ValuesEnumerateAllPhases(p: AuctionPhase)
    ensures p in Values
    ensures forall i, j :: 0 <= i < j < |Values| ==> Values[i] != Values[j]
  {
  }

  /** The names of different phases differ. */
  lemma NameInjective(p: AuctionPhase, q: AuctionPhase)
    requires Name(p) == Name(q)
    ensures p == q
  {
  }

  /** `fromString` returns null exactly when no phase carries the name `s`. */
  lemma FromStringNone(s: string)
    ensures FromString(s).None? <==> forall p: AuctionPhase :: Name(p) != s
  {
    if FromString(s).None? {
      forall p: AuctionPhase ensures Name(p) != s {
        ValuesEnumerateAllPhases(p);
        var i :| 0 <= i < |Values| && Values[i] == p;
      }
    }
  }

  /** Round trip: looking up a phase's own name yields that phase. */
  lemma {:induction false} FromStringName(p: AuctionPhase)
    ensures FromString(Name(p)) == Some(p)
  {
    FromStringNone(Name(p));
    NameInjective(FromString(Name(p)).value, p);
  }

  /** Round trip in the other direction: a string that names a phase is that phase's name. */
  lemma NameFromString(s: string)
    requires FromString(s).Some?
    ensures Name(FromString(s).value) == s
  {
  }

  /** Names that are not one of the four identifiers give `None`. */
  lemma FromStringUnknown()
    ensures FromString("Closure") == None
    ensures FromString("") == None
    ensures FromString("registration") == None
  {
  }
}
