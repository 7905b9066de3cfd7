/** Runs of the payer seen through its two logs. An event is what one call of Pay does to
    them; the lemmas hold of every run whose events keep the rules in Lawful. */
module Ledger {
  import opened Bytes
  import opened Gate

  datatype State = State(spent: set<Key>, receipts: seq<Receipt>)

  const EMPTY: State := State({}, [])

  /** One call: whose authorisation, what was decided, whether the entry was recorded, whether
      the payment was released, and at what price. */
  datatype Event = Event(nonce: Key, receipt: Receipt, recorded: bool, paid: bool, price: nat)
  {
    predicate Allowed() {
      receipt.cls == Allow
    }
  }

  function Step(st: State, e: Event): State {
    State(if e.Allowed() then st.spent + {e.nonce} else st.spent,
          Appended(st.receipts, e.recorded, e.receipt))
  }

  /** An event allows unspent nonces only, and pays only what is allowed, recorded and within
      the ceiling. */
  predicate Lawful(st: State, e: Event, ceiling: nat) {
    && (e.Allowed() ==> e.nonce !in st.spent)
    && (e.paid ==> e.Allowed() && e.recorded && e.price <= ceiling)
  }

  /** The state after the first n events. */
  function After(st: State, es: seq<Event>, n: nat): State
    requires n <= |es|
  {
    if n == 0 then st else Step(After(st, es, n - 1), es[n - 1])
  }

  ghost predicate LawfulRun(st: State, es: seq<Event>, ceiling: nat) {
    forall i: nat :: i < |es| ==> Lawful(After(st, es, i), es[i], ceiling)
  }

  /** The events of a sequence of calls, each made in the state the earlier ones leave. */
  ghost function Events<C>(f: (State, C) -> Event, calls: seq<C>): (es: seq<Event>)
    ensures |es| == |calls|
  {
    if calls == [] then [] else
    var es, n := Events(f, calls[..|calls| - 1]), |calls| - 1;
    es + [f(After(EMPTY, es, n), calls[n])]
  }

  lemma {:induction false} AfterPrefix(st: State, es: seq<Event>, e: Event, n: nat)
    requires n <= |es|
    ensures After(st, es + [e], n) == After(st, es, n)
  {
    if n > 0 { AfterPrefix(st, es, e, n - 1); }
  }

  /** Each event is the one its call makes in the state of the run at that point. */
  lemma {:induction false} EventAt<C>(f: (State, C) -> Event, calls: seq<C>, i: nat)
    requires i < |calls|
    ensures Events(f, calls)[i] == f(After(EMPTY, Events(f, calls), i), calls[i])
  {
    var n := |calls| - 1;
    var es := Events(f, calls[..n]);
    var e := f(After(EMPTY, es, n), calls[n]);
    assert Events(f, calls) == es + [e];
    AfterPrefix(EMPTY, es, e, i);
    if i < n {
      EventAt(f, calls[..n], i);
    }
  }

  /** Both logs only grow. */
  lemma {:induction false} LogsGrow(st: State, es: seq<Event>, m: nat, n: nat)
    requires m <= n <= |es|
    ensures After(st, es, m).spent <= After(st, es, n).spent
    ensures After(st, es, m).receipts <= After(st, es, n).receipts
  {
    if m < n { LogsGrow(st, es, m, n - 1); }
  }

  /** An authorisation is used up the first time it is allowed, whatever becomes of that call:
      no later event with the nonce is allowed or pays. So a nonce pays at most once, and a
      nonce whose Allow could not be recorded never pays. */
  lemma AllowedOnce(st: State, es: seq<Event>, ceiling: nat, i: nat, j: nat)
    requires LawfulRun(st, es, ceiling) && i < j < |es|
    requires es[i].nonce == es[j].nonce && es[i].Allowed()
    ensures !es[j].Allowed() && !es[j].paid
    ensures !es[i].recorded ==> !es[i].paid
  {
    assert es[i].nonce in After(st, es, i + 1).spent;
    LogsGrow(st, es, i + 1, j);
    assert Lawful(After(st, es, j), es[j], ceiling) && Lawful(After(st, es, i), es[i], ceiling);
  }

  /** A nonce is spent by Allow alone. */
  lemma {:induction false} SpentByAllow(st: State, es: seq<Event>, n: nat, nonce: Key)
    requires n <= |es|
    ensures nonce in After(st, es, n).spent <==>
      nonce in st.spent || exists i: nat :: i < n && es[i].Allowed() && es[i].nonce == nonce
  {
    if n > 0 { SpentByAllow(st, es, n - 1, nonce); }
  }

  /** The log position an event appends at. */
  function EntryOf(st: State, es: seq<Event>, i: nat): nat
    requires i < |es|
  {
    |After(st, es, i).receipts|
  }

  /** Every release has an Allow entry of its own: it carries the event's binding and time, is
      in the log when the call is over and in every later log, and no two releases share it. */
  lemma OwnEvidence(st: State, es: seq<Event>, ceiling: nat, i: nat, n: nat)
    requires LawfulRun(st, es, ceiling) && i < n <= |es| && es[i].paid
    ensures var k := EntryOf(st, es, i);
      && k < |After(st, es, n).receipts| && After(st, es, n).receipts[k] == es[i].receipt
      && es[i].Allowed()
    ensures forall j: nat :: i < j < |es| && es[j].paid ==> EntryOf(st, es, i) < EntryOf(st, es, j)
  {
    assert Lawful(After(st, es, i), es[i], ceiling);
    EntryStays(st, es, i, n);
    forall j: nat | i < j < |es| && es[j].paid ensures EntryOf(st, es, i) < EntryOf(st, es, j) {
      EntryStays(st, es, i, j);
    }
  }

  lemma EntryStays(st: State, es: seq<Event>, i: nat, n: nat)
    requires i < n <= |es| && es[i].recorded
    ensures EntryOf(st, es, i) < |After(st, es, n).receipts|
    ensures After(st, es, n).receipts[EntryOf(st, es, i)] == es[i].receipt
  {
    var a, b := After(st, es, i).receipts, After(st, es, i + 1).receipts;
    assert b == a + [es[i].receipt];
    LogsGrow(st, es, i + 1, n);
    assert b[|a|] == After(st, es, n).receipts[|a|];
  }

  /** A log entry for every recorded event, whatever was decided, and for no other. */
  lemma {:induction false} EntriesCount(es: seq<Event>, n: nat)
    requires n <= |es|
    ensures |After(EMPTY, es, n).receipts| == |set i | 0 <= i < n && es[i].recorded|
  {
    if n > 0 {
      EntriesCount(es, n - 1);
      var a, b := set i | 0 <= i < n - 1 && es[i].recorded, set i | 0 <= i < n && es[i].recorded;
      Grown(a, b, n - 1, es[n - 1].recorded);
    }
  }

  function AllowEntries(log: seq<Receipt>): nat {
    if log == [] then 0
    else AllowEntries(log[..|log| - 1]) + (if log[|log| - 1].cls == Allow then 1 else 0)
  }

  /** How many of the first n events paid. */
  function Releases(es: seq<Event>, n: nat): nat
    requires n <= |es|
  {
    if n == 0 then 0 else Releases(es, n - 1) + (if es[n - 1].paid then 1 else 0)
  }

  predicate IsStopped(e: Event) {
    e.Allowed() && e.recorded && !e.paid
  }

  /** How many of the first n events were allowed and recorded, but did not pay. */
  function Stopped(es: seq<Event>, n: nat): nat
    requires n <= |es|
  {
    if n == 0 then 0 else Stopped(es, n - 1) + (if IsStopped(es[n - 1]) then 1 else 0)
  }

  /** The value released by the first n events. */
  function Outflow(es: seq<Event>, n: nat): nat
    requires n <= |es|
  {
    if n == 0 then 0 else Outflow(es, n - 1) + (if es[n - 1].paid then es[n - 1].price else 0)
  }

  /** The three counts are the numbers of entries and of events they are named for. */
  lemma CountsAre(log: seq<Receipt>, es: seq<Event>, n: nat)
    requires n <= |es|
    ensures AllowEntries(log) == |set i | 0 <= i < |log| && log[i].cls == Allow|
    ensures Releases(es, n) == |set i | 0 <= i < n && es[i].paid|
    ensures Stopped(es, n) == |set i | 0 <= i < n && es[i].Allowed() && es[i].recorded && !es[i].paid|
  {
    AllowEntriesCount(log);
    ReleasesCount(es, n);
    StoppedCount(es, n);
    assert (set i | 0 <= i < n && IsStopped(es[i]))
      == set i | 0 <= i < n && es[i].Allowed() && es[i].recorded && !es[i].paid;
  }

  lemma Grown(a: set<int>, b: set<int>, x: int, grows: bool)
    requires x !in a && forall y :: y in b <==> y in a || (grows && y == x)
    ensures |b| == |a| + (if grows then 1 else 0)
  {
    var c := if grows then a + {x} else a;
    forall y ensures y in b <==> y in c { }
    assert b == c;
  }

  lemma {:induction false} AllowEntriesCount(log: seq<Receipt>)
    ensures AllowEntries(log) == |set i | 0 <= i < |log| && log[i].cls == Allow|
  {
    if log != [] {
      var m := |log| - 1;
      var rest := log[..m];
      AllowEntriesCount(rest);
      var a, b := set i | 0 <= i < m && rest[i].cls == Allow, set i | 0 <= i < |log| && log[i].cls == Allow;
      assert forall i :: 0 <= i < m ==> rest[i] == log[i];
      Grown(a, b, m, log[m].cls == Allow);
    }
  }

  lemma {:induction false} ReleasesCount(es: seq<Event>, n: nat)
    requires n <= |es|
    ensures Releases(es, n) == |set i | 0 <= i < n && es[i].paid|
  {
    if n > 0 {
      ReleasesCount(es, n - 1);
      var a, b := set i | 0 <= i < n - 1 && es[i].paid, set i | 0 <= i < n && es[i].paid;
      Grown(a, b, n - 1, es[n - 1].paid);
    }
  }

  lemma {:induction false} StoppedCount(es: seq<Event>, n: nat)
    requires n <= |es|
    ensures Stopped(es, n) == |set i | 0 <= i < n && IsStopped(es[i])|
  {
    if n > 0 {
      StoppedCount(es, n - 1);
      var a, b := set i | 0 <= i < n - 1 && IsStopped(es[i]), set i | 0 <= i < n && IsStopped(es[i]);
      Grown(a, b, n - 1, IsStopped(es[n - 1]));
    }
  }

  /** The outflow moves by the prices of the releases: changing what one event pays changes the
      outflow by the difference. */
  lemma {:induction false} OutflowChange(es: seq<Event>, n: nat, i: nat, e: Event)
    requires i < n <= |es|
    ensures Outflow(es[i := e], n) == Outflow(es, n)
      - (if es[i].paid then es[i].price else 0) + (if e.paid then e.price else 0)
  {
    var fs := es[i := e];
    if i < n - 1 {
      OutflowChange(es, n - 1, i, e);
    } else {
      OutflowPrefix(es, fs, n - 1);
    }
  }

  lemma {:induction false} OutflowPrefix(es: seq<Event>, fs: seq<Event>, n: nat)
    requires n <= |es| && n <= |fs| && es[..n] == fs[..n]
    ensures Outflow(es, n) == Outflow(fs, n)
  {
    if n > 0 {
      assert es[..n][..n - 1] == es[..n - 1] && fs[..n][..n - 1] == fs[..n - 1];
      assert es[n - 1] == es[..n][n - 1] && fs[n - 1] == fs[..n][n - 1];
      OutflowPrefix(es, fs, n - 1);
    }
  }

  /** Nothing flows out when nothing is paid. */
  lemma {:induction false} NoOutflow(es: seq<Event>, n: nat)
    requires n <= |es| && forall i :: 0 <= i < n ==> !es[i].paid
    ensures Outflow(es, n) == 0
  {
    if n > 0 { NoOutflow(es, n - 1); }
  }

  /** What is paid was allowed and recorded. */
  ghost predicate PaidIsRecorded(es: seq<Event>) {
    forall i :: 0 <= i < |es| && es[i].paid ==> es[i].Allowed() && es[i].recorded
  }

  lemma LawfulIsRecorded(st: State, es: seq<Event>, ceiling: nat)
    requires LawfulRun(st, es, ceiling)
    ensures PaidIsRecorded(es)
  {
    forall i | 0 <= i < |es| && es[i].paid ensures es[i].Allowed() && es[i].recorded {
      assert Lawful(After(st, es, i), es[i], ceiling);
    }
  }

  lemma {:induction false} CountEntries(st: State, es: seq<Event>, n: nat)
    requires PaidIsRecorded(es) && n <= |es|
    ensures AllowEntries(After(st, es, n).receipts)
      == AllowEntries(st.receipts) + Releases(es, n) + Stopped(es, n)
  {
    if n > 0 {
      CountEntries(st, es, n - 1);
      AllowEntriesSnoc(After(st, es, n - 1).receipts, es[n - 1].receipt);
    }
  }

  /** The books balance: the Allow entries of a run are its releases and the payments stopped
      after they were recorded. */
  lemma {:induction false} BooksBalance(st: State, es: seq<Event>, ceiling: nat, n: nat)
    requires LawfulRun(st, es, ceiling) && n <= |es|
    ensures AllowEntries(After(st, es, n).receipts)
      == AllowEntries(st.receipts) + Releases(es, n) + Stopped(es, n)
  {
    LawfulIsRecorded(st, es, ceiling);
    CountEntries(st, es, n);
  }

  lemma AllowEntriesSnoc(log: seq<Receipt>, r: Receipt)
    ensures AllowEntries(log + [r]) == AllowEntries(log) + (if r.cls == Allow then 1 else 0)
  {
    assert (log + [r])[..|log|] == log;
  }

  lemma {:induction false} OutflowByReleases(st: State, es: seq<Event>, ceiling: nat, n: nat)
    requires LawfulRun(st, es, ceiling) && n <= |es|
    ensures Outflow(es, n) <= ceiling * Releases(es, n)
  {
    if n > 0 {
      OutflowByReleases(st, es, ceiling, n - 1);
      assert Lawful(After(st, es, n - 1), es[n - 1], ceiling);
      MulStep(ceiling, Releases(es, n - 1));
    }
  }

  lemma MulStep(c: nat, r: nat)
    ensures c * (r + 1) == c * r + c
  {
  }

  /** The value a run releases is bounded by the ceiling for every Allow entry in the log. */
  lemma OutflowBounded(st: State, es: seq<Event>, ceiling: nat, n: nat)
    requires LawfulRun(st, es, ceiling) && n <= |es|
    ensures Outflow(es, n) <= ceiling * AllowEntries(After(st, es, n).receipts)
  {
    BooksBalance(st, es, ceiling, n);
    OutflowByReleases(st, es, ceiling, n);
    MulMonotone(ceiling, Releases(es, n), AllowEntries(After(st, es, n).receipts));
  }

  lemma MulMonotone(c: nat, a: nat, b: nat)
    requires a <= b
    ensures c * a <= c * b
  {
  }
}
