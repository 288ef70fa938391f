/** The anti-replay window of one inbound SPI (sim/client.go; section 3.4.3 of RFC 4303). */
module ReplayWindow {

  const SIZE: nat := 64

  datatype Window = Window(high: nat, seen: set<nat>)

  const Fresh := Window(0, {})

  /** Below this, or at it, a sequence number is too old. */
  predicate TooOld(high: nat, n: nat) {
    high >= SIZE && n <= high - SIZE
  }

  /** Kept by pruning: one entry more than is still acceptable. */
  predicate Kept(high: nat, n: nat) {
    high >= SIZE ==> n >= high - SIZE
  }

  function Max(a: nat, b: nat): nat {
    if a < b then b else a
  }

  function Pruned(high: nat, seen: set<nat>): set<nat> {
    set n | n in seen && Kept(high, n)
  }

  function Answer(w: Window, n: nat): bool {
    !TooOld(w.high, n) && n !in w.seen
  }

  function Next(w: Window, n: nat): Window {
    if !Answer(w, n) then w
    else
      var high := Max(w.high, n);
      Window(high, Pruned(high, w.seen + {n}))
  }

  class ReplayWin {
    var high: nat
    var seen: set<nat>

    ghost function State(): Window
      reads this
    {
      Window(high, seen)
    }

    constructor ()
      ensures State() == Fresh
    {
      high, seen := 0, {};
    }

    method Accept(n: nat) returns (ok: bool)
      modifies this
      ensures ok == Answer(old(State()), n) && State() == Next(old(State()), n)
    {
      if high >= SIZE && n <= high - SIZE { return false; }
      if n in seen { return false; }
      if n > high { high := n; }
      seen := seen + {n};
      ghost var all := seen;
      var left := seen;
      while left != {}
        invariant left <= all
        invariant seen == set x | x in all && (x in left || Kept(high, x))
        invariant high == Max(old(high), n)
        decreases left
      {
        var x :| x in left;
        if high >= SIZE && x < high - SIZE { seen := seen - {x}; }
        left := left - {x};
      }
      ok := true;
    }
  }

  // ---------------------------------------------------------------- the unbounded reference

  /** Everything ever accepted, nothing forgotten. */
  datatype Ledger = Ledger(high: nat, accepted: set<nat>)

  function LedgerAnswer(l: Ledger, n: nat): bool {
    !TooOld(l.high, n) && n !in l.accepted
  }

  function LedgerNext(l: Ledger, n: nat): Ledger {
    if LedgerAnswer(l, n) then Ledger(Max(l.high, n), l.accepted + {n}) else l
  }

  function Run(w: Window, calls: seq<nat>): Window {
    if calls == [] then w else Next(Run(w, calls[..|calls| - 1]), calls[|calls| - 1])
  }

  function LedgerRun(l: Ledger, calls: seq<nat>): Ledger {
    if calls == [] then l else LedgerNext(LedgerRun(l, calls[..|calls| - 1]), calls[|calls| - 1])
  }

  /** The window is the ledger with everything too old to matter forgotten. */
  predicate Matches(w: Window, l: Ledger) {
    w.high == l.high && w.seen == Pruned(l.high, l.accepted) && forall n | n in l.accepted :: n <= l.high
  }

  lemma {:induction false} RunMatches(calls: seq<nat>)
    ensures Matches(Run(Fresh, calls), LedgerRun(Ledger(0, {}), calls))
  {
    if calls != [] {
      RunMatches(calls[..|calls| - 1]);
      StepMatches(Run(Fresh, calls[..|calls| - 1]), LedgerRun(Ledger(0, {}), calls[..|calls| - 1]), calls[|calls| - 1]);
    }
  }

  lemma StepMatches(w: Window, l: Ledger, n: nat)
    requires Matches(w, l)
    ensures Answer(w, n) == LedgerAnswer(l, n) && Matches(Next(w, n), LedgerNext(l, n))
  {
  }

  /** After any calls the pruned window answers the next one like the unbounded ledger, and never
      stores more than 65 numbers. */
  lemma WindowIsLedger(calls: seq<nat>, n: nat)
    ensures Answer(Run(Fresh, calls), n) == LedgerAnswer(LedgerRun(Ledger(0, {}), calls), n)
    ensures |Run(Fresh, calls).seen| <= SIZE + 1
  {
    RunMatches(calls);
    var w := Run(Fresh, calls);
    StepMatches(w, LedgerRun(Ledger(0, {}), calls), n);
    IntervalSize(w.seen, if w.high >= SIZE then w.high - SIZE else 0, SIZE + 1);
  }

  lemma {:induction false} IntervalSize(s: set<nat>, lo: nat, len: nat)
    requires forall n | n in s :: lo <= n < lo + len
    ensures |s| <= len
    decreases len
  {
    if len == 0 {
      assert s == {};
    } else {
      var top := lo + len - 1;
      IntervalSize(s - {top}, lo, len - 1);
      if top !in s { assert s - {top} == s; }
    }
  }

  /** No number is accepted twice: once accepted, every later call with it is refused. */
  lemma {:induction false} NeverTwice(calls: seq<nat>, i: nat, n: nat)
    requires i < |calls| && calls[i] == n && Answer(Run(Fresh, calls[..i]), n)
    ensures !Answer(Run(Fresh, calls), n)
  {
    RunMatches(calls[..i]);
    RunMatches(calls);
    StaysAccepted(calls, i, n);
  }

  lemma {:induction false} StaysAccepted(calls: seq<nat>, i: nat, n: nat)
    requires i < |calls| && calls[i] == n && LedgerAnswer(LedgerRun(Ledger(0, {}), calls[..i]), n)
    ensures n in LedgerRun(Ledger(0, {}), calls).accepted
  {
    var prefix := calls[..|calls| - 1];
    if i == |calls| - 1 {
      assert prefix == calls[..i];
    } else {
      assert prefix[..i] == calls[..i];
      StaysAccepted(prefix, i, n);
    }
  }

  /** And a number is refused only for one of those two reasons, so a fresh one inside the window
      is always accepted. */
  lemma FreshAccepted(calls: seq<nat>, n: nat)
    requires n !in calls && !TooOld(Run(Fresh, calls).high, n)
    ensures Answer(Run(Fresh, calls), n)
  {
    RunMatches(calls);
    OnlyCalled(calls, n);
  }

  lemma {:induction false} OnlyCalled(calls: seq<nat>, n: nat)
    requires n !in calls
    ensures n !in LedgerRun(Ledger(0, {}), calls).accepted
  {
    if calls != [] { OnlyCalled(calls[..|calls| - 1], n); }
  }
}
