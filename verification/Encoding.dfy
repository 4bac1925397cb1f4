/** The integers that stand for actions in the generated tables, and the actions that a state contributes to them. */
module Encoding {
  import opened Grammars
  import opened Items
  import opened Structs
  import opened ActtabModule
  import A = Actions
  import Z = Compress

  /** The library's qsort: it orders what it is given by the comparison function. */
  ghost predicate IsQsort<T(!new)>(qsort: seq<T> -> seq<T>, cmp: (T, T) -> int) {
    forall s :: multiset(qsort(s)) == multiset(s) && forall i, j | 0 <= i < j < |qsort(s)| ::
        cmp(qsort(s)[i], qsort(s)[j]) <= 0
  }

  /** The actions for which compute_action is not negative. */
  predicate Coded(a: Action) {
    a.kind == Shift || a.kind == Reduce || a.kind == Error || a.kind == Accept
  }

  function ComputeAction(nstate: nat, nrule: nat, statenum: seq<nat>, a: Action): int
    requires a.kind == Shift ==> a.target < |statenum|
  {
    match a.kind
    case Shift => statenum[a.target]
    case Reduce => a.target + nstate
    case Error => nstate + nrule
    case Accept => nstate + nrule + 1
    case _ => -1
  }

  /** What the table output relies on in the action lists of `n` states. */
  ghost predicate Codable(g: Grammar, n: nat, ap: seq<Action>) {
    && A.UniqueLive(ap) && Z.NoErrors(ap)
    && (forall a | a in ap && a.kind == Shift :: a.target < n)
    && (forall a | a in ap && Coded(a) :: a.sp <= g.nsymbol && (a.sp == g.nsymbol ==> a.kind == Reduce))
  }

  /** The actions of the terminal row, or of the nonterminal row. */
  predicate Selected(g: Grammar, a: Action, isTkn: bool) {
    Coded(a) && if isTkn then a.sp < g.nterminal else a.sp >= g.nterminal && a.sp != g.nsymbol
  }

  ghost predicate ShiftsInto(n: nat, ap: seq<Action>) {
    forall a | a in ap && a.kind == Shift :: a.target < n
  }

  function Entries(g: Grammar, statenum: seq<nat>, ap: seq<Action>, isTkn: bool): seq<LookaheadAction>
    requires ShiftsInto(|statenum|, ap)
  {
    if ap == [] then []
    else
      var n := |ap| - 1;
      Entries(g, statenum, ap[..n], isTkn)
      + if Selected(g, ap[n], isTkn) then [LA(ap[n].sp, ComputeAction(|statenum|, |g.rules|, statenum, ap[n]))] else []
  }

  lemma {:induction false} EntriesMember(g: Grammar, statenum: seq<nat>, ap: seq<Action>, isTkn: bool,
                                         e: LookaheadAction)
    requires ShiftsInto(|statenum|, ap)
    ensures e in Entries(g, statenum, ap, isTkn) <==>
              exists a :: a in ap && Selected(g, a, isTkn)
                  && e == LA(a.sp, ComputeAction(|statenum|, |g.rules|, statenum, a))
    decreases |ap|
  {
    if ap != [] {
      var n := |ap| - 1;
      EntriesMember(g, statenum, ap[..n], isTkn, e);
      assert ap == ap[..n] + [ap[n]];
      assert forall a :: a in ap <==> a in ap[..n] || a == ap[n];
    }
  }

  /** How many entries there are depends on no numbering. */
  lemma {:induction false} EntriesCount(g: Grammar, statenum: seq<nat>, statenum': seq<nat>, ap: seq<Action>,
                                        isTkn: bool)
    requires ShiftsInto(|statenum|, ap) && |statenum'| == |statenum|
    ensures |Entries(g, statenum, ap, isTkn)| == |Entries(g, statenum', ap, isTkn)|
    decreases |ap|
  {
    if ap != [] {
      EntriesCount(g, statenum, statenum', ap[..|ap| - 1], isTkn);
    }
  }

  /** A row is a transaction: one action for each symbol. */
  lemma {:induction false} EntriesTransaction(g: Grammar, statenum: seq<nat>, ap: seq<Action>, isTkn: bool)
    requires ShiftsInto(|statenum|, ap) && A.UniqueLive(ap) && Z.NoErrors(ap)
    ensures Transaction(Entries(g, statenum, ap, isTkn))
    decreases |ap|
  {
    if ap != [] {
      var n := |ap| - 1;
      assert ap == ap[..n] + [ap[n]];
      forall i, j ensures !A.BothLive(ap[..n], i, j) {
        assert !A.BothLive(ap, i, j);
      }
      EntriesTransaction(g, statenum, ap[..n], isTkn);
      if Selected(g, ap[n], isTkn) {
        var t := Entries(g, statenum, ap[..n], isTkn);
        forall k | 0 <= k < |t| ensures t[k].lookahead != ap[n].sp {
          EntriesMember(g, statenum, ap[..n], isTkn, t[k]);
          var a :| a in ap[..n] && Selected(g, a, isTkn) && t[k].lookahead == a.sp;
          var i :| 0 <= i < n && ap[..n][i] == a;
          assert !A.BothLive(ap, i, n);
        }
      }
    }
  }

  /** The row has an entry exactly for the symbols with a live action, and it is the code of that action. */
  lemma EntryOf(g: Grammar, statenum: seq<nat>, ap: seq<Action>, isTkn: bool, x: nat)
    requires Codable(g, |statenum|, ap) && (if isTkn then x < g.nterminal else g.nterminal <= x < g.nsymbol)
    ensures ShiftsInto(|statenum|, ap)
    ensures Z.FindLive(ap, x).Some? ==>
              var a := Z.FindLive(ap, x).value;
              a in ap && A.Live(a) && LA(x, ComputeAction(|statenum|, |g.rules|, statenum, a)) in Entries(g, statenum,
                      ap, isTkn)
    ensures forall e | e in Entries(g, statenum, ap, isTkn) && e.lookahead == x :: Z.FindLive(ap, x).Some?
  {
    Z.FindLiveIs(ap, x);
    if Z.FindLive(ap, x).Some? {
      var a := Z.FindLive(ap, x).value;
      EntriesMember(g, statenum, ap, isTkn, LA(x, ComputeAction(|statenum|, |g.rules|, statenum, a)));
    }
    forall e | e in Entries(g, statenum, ap, isTkn) && e.lookahead == x ensures Z.FindLive(ap, x).Some? {
      EntriesMember(g, statenum, ap, isTkn, e);
      var a :| a in ap && Selected(g, a, isTkn) && e.lookahead == a.sp;
      assert Z.IsLive(ap, a);
    }
  }
}
