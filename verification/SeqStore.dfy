/** The replay high-water store: a bounded table with restricted eviction,
    persisted on every accept, that behaves for the bound session like an
    unbounded map of high-water marks. */
module SeqStore {
  import opened Prelude

  type Session = nat
  type Node = nat

  const MAX_ENTRIES: nat := 128

  datatype Mark = Mark(session: Session, node: Node, lastSeq: nat, touched: nat)

  /** A line of the store file; the recency tick is not persisted. */
  datatype Line = Line(session: Session, node: Node, lastSeq: nat)

  datatype Verdict = Accepted | ReplayDetected | StoreExhausted | PersistFailed

  // ---- the table as a value ----

  ghost predicate DistinctMarks(t: seq<Mark>) {
    forall i, j :: 0 <= i < j < |t| ==> !(t[i].session == t[j].session && t[i].node == t[j].node)
  }

  function LinesOf(t: seq<Mark>): seq<Line> {
    seq(|t|, i requires 0 <= i < |t| => Line(t[i].session, t[i].node, t[i].lastSeq))
  }

  /** The stored high-water mark, whoever placed it. */
  ghost function MarkOf(t: seq<Mark>, s: Session, n: Node): Option<nat> {
    if exists i :: 0 <= i < |t| && t[i].session == s && t[i].node == n
    then
      var i :| 0 <= i < |t| && t[i].session == s && t[i].node == n;
      Some(t[i].lastSeq)
    else None
  }

  lemma MarkIsUnique(t: seq<Mark>, i: nat)
    requires DistinctMarks(t) && i < |t|
    ensures MarkOf(t, t[i].session, t[i].node) == Some(t[i].lastSeq)
  {
  }

  /** A table whose own-session marks agree with `t` except that (s, n) is now
      `seq`. */
  ghost predicate Raised(t: seq<Mark>, t': seq<Mark>, s: Session, n: Node, q: nat) {
    && MarkOf(t', s, n) == Some(q)
    && (forall m :: m != n ==> MarkOf(t', s, m) == MarkOf(t, s, m))
    && (forall i :: 0 <= i < |t'| ==> t'[i].session == s || t'[i] in t)
  }

  lemma RaiseInPlace(t: seq<Mark>, i: nat, mark: Mark)
    requires DistinctMarks(t) && i < |t|
    requires t[i].session == mark.session && t[i].node == mark.node
    ensures DistinctMarks(t[i := mark]) && Raised(t, t[i := mark], mark.session, mark.node, mark.lastSeq)
  {
    var t' := t[i := mark];
    MarkIsUnique(t', i);
    forall m | m != mark.node ensures MarkOf(t', mark.session, m) == MarkOf(t, mark.session, m) {
      SameMarks(t, t', mark.session, m);
    }
  }

  lemma RaiseByAppending(t: seq<Mark>, mark: Mark)
    requires DistinctMarks(t) && MarkOf(t, mark.session, mark.node).None?
    ensures DistinctMarks(t + [mark]) && Raised(t, t + [mark], mark.session, mark.node, mark.lastSeq)
  {
    var t' := t + [mark];
    assert t'[|t|] == mark;
    MarkIsUnique(t', |t|);
    forall m | m != mark.node ensures MarkOf(t', mark.session, m) == MarkOf(t, mark.session, m) {
      SameMarks(t, t', mark.session, m);
    }
  }

  /** Overwriting another session's mark leaves every own mark in place. */
  lemma RaiseByEvicting(t: seq<Mark>, victim: nat, mark: Mark)
    requires DistinctMarks(t) && MarkOf(t, mark.session, mark.node).None?
    requires victim < |t| && t[victim].session != mark.session
    ensures DistinctMarks(t[victim := mark])
    ensures Raised(t, t[victim := mark], mark.session, mark.node, mark.lastSeq)
  {
    var t' := t[victim := mark];
    MarkIsUnique(t', victim);
    forall m | m != mark.node ensures MarkOf(t', mark.session, m) == MarkOf(t, mark.session, m) {
      SameMarks(t, t', mark.session, m);
    }
  }

  lemma SameMarks(t: seq<Mark>, t': seq<Mark>, s: Session, m: Node)
    requires DistinctMarks(t) && DistinctMarks(t')
    requires |t| <= |t'|
    requires forall i :: 0 <= i < |t| && t[i].session == s && t[i].node == m ==> t'[i] == t[i]
    requires forall i :: 0 <= i < |t'| && t'[i].session == s && t'[i].node == m ==> i < |t| && t[i] == t'[i]
    ensures MarkOf(t', s, m) == MarkOf(t, s, m)
  {
    if i :| 0 <= i < |t| && t[i].session == s && t[i].node == m {
      MarkIsUnique(t, i);
      MarkIsUnique(t', i);
    }
  }

  /** What a branch of Accept owes: the mark raised and saved, or nothing changed. */
  ghost predicate RaisedOrNot(v: Verdict, t: seq<Mark>, t': seq<Mark>, f: seq<Line>, f': seq<Line>,
                              s: Session, n: Node, q: nat, persists: bool)
  {
    && (v.Accepted? || v.PersistFailed?) && (v.Accepted? <==> persists)
    && (if v.Accepted? then Raised(t, t', s, n, q) else t' == t && f' == f)
  }

  // ---- the store ----

  class Store {
    const entries: array<Mark>
    var count: nat
    var tick: nat
    var file: seq<Line>

    ghost predicate Valid()
      reads this, entries
    {
      && entries.Length == MAX_ENTRIES
      && count <= MAX_ENTRIES
      && DistinctMarks(Table())
      && (forall i :: 0 <= i < count ==> 0 < entries[i].touched)
      && file == LinesOf(Table())
    }

    ghost function Table(): seq<Mark>
      requires count <= entries.Length
      reads this, entries
    {
      entries[..count]
    }

    /** virp_seqstore_init with a path: load what the file holds, up to the
        size of the table. A file the store wrote itself loads to a valid store. */
    constructor (lines: seq<Line>)
      ensures entries.Length == MAX_ENTRIES && count <= MAX_ENTRIES && fresh(entries) && file == lines
      ensures LinesOf(Table()) == lines[..if |lines| < MAX_ENTRIES then |lines| else MAX_ENTRIES]
      ensures |lines| <= MAX_ENTRIES && DistinctLines(lines) ==> Valid()
    {
      entries := new Mark[MAX_ENTRIES];
      count, tick, file := 0, 0, lines;
      new;
      while count < |lines| && count < MAX_ENTRIES
        invariant entries.Length == MAX_ENTRIES && fresh(entries)
        invariant count <= |lines| && count <= MAX_ENTRIES && file == lines
        invariant forall i :: 0 <= i < count ==>
                    && entries[i].session == lines[i].session && entries[i].node == lines[i].node
                    && entries[i].lastSeq == lines[i].lastSeq && 0 < entries[i].touched
      {
        tick := tick + 1;
        entries[count] := Mark(lines[count].session, lines[count].node, lines[count].lastSeq, tick);
        count := count + 1;
      }
    }

    method FindMark(s: Session, n: Node) returns (i: nat)
      requires Valid()
      ensures i <= count
      ensures i < count ==> entries[i].session == s && entries[i].node == n
      ensures i == count ==> MarkOf(Table(), s, n).None?
    {
      i := 0;
      while i < count
        invariant i <= count
        invariant forall k :: 0 <= k < i ==> !(entries[k].session == s && entries[k].node == n)
      {
        if entries[i].node == n && entries[i].session == s {
          return;
        }
        i := i + 1;
      }
    }

    /** The least recently touched mark of a different session, if there is one. */
    method PickVictim(s: Session) returns (victim: Option<nat>)
      requires Valid() && count == MAX_ENTRIES
      ensures victim.None? ==> forall i :: 0 <= i < count ==> entries[i].session == s
      ensures victim.Some? ==>
                && victim.value < count && entries[victim.value].session != s
                && forall i :: 0 <= i < count && entries[i].session != s ==> entries[victim.value].touched <= entries[i].touched
    {
      victim := None;
      for i := 0 to MAX_ENTRIES
        invariant victim.None? ==> forall k :: 0 <= k < i ==> entries[k].session == s
        invariant victim.Some? ==>
                    && victim.value < i && entries[victim.value].session != s
                    && forall k :: 0 <= k < i && entries[k].session != s ==> entries[victim.value].touched <= entries[k].touched
      {
        if entries[i].session != s && (victim.None? || entries[i].touched < entries[victim.value].touched) {
          victim := Some(i);
        }
      }
    }

    /** Overwrite a slot; `before` comes back when the save fails. */
    method Overwrite(slot: nat, s: Session, n: Node, q: nat, persists: bool) returns (v: Verdict)
      requires Valid() && slot < count
      requires DistinctMarks(Table()[slot := Mark(s, n, q, tick + 1)])
      requires Raised(Table(), Table()[slot := Mark(s, n, q, tick + 1)], s, n, q)
      modifies this, entries
      ensures Valid() && RaisedOrNot(v, old(Table()), Table(), old(file), file, s, n, q, persists)
    {
      hide Raised, DistinctMarks, LinesOf;
      var before := entries[slot];
      tick := tick + 1;
      entries[slot] := Mark(s, n, q, tick);
      assert Table() == old(Table())[slot := Mark(s, n, q, tick)];
      if !persists {
        entries[slot] := before;
        assert Table() == old(Table());
        return PersistFailed;
      }
      file := LinesOf(entries[..count]);
      return Accepted;
    }

    method AddMark(s: Session, n: Node, q: nat, persists: bool) returns (v: Verdict)
      requires Valid() && count < MAX_ENTRIES && MarkOf(Table(), s, n).None?
      modifies this, entries
      ensures Valid() && RaisedOrNot(v, old(Table()), Table(), old(file), file, s, n, q, persists)
    {
      RaiseByAppending(Table(), Mark(s, n, q, tick + 1));
      hide Raised, DistinctMarks, LinesOf, MarkOf;
      tick := tick + 1;
      entries[count] := Mark(s, n, q, tick);
      count := count + 1;
      assert Table() == old(Table()) + [Mark(s, n, q, tick)];
      if !persists {
        count := count - 1;
        assert Table() == old(Table());
        return PersistFailed;
      }
      file := LinesOf(entries[..count]);
      return Accepted;
    }

    /** Check and update in one step. `persists` says whether the write to disk
        succeeds; on any refusal the marks are exactly what they were. */
    method Accept(s: Session, n: Node, q: nat, persists: bool) returns (v: Verdict)
      requires Valid()
      modifies this, entries
      ensures Valid()
      ensures v.ReplayDetected? <==> old(MarkOf(Table(), s, n).Some? && q <= MarkOf(Table(), s, n).value)
      ensures v.StoreExhausted? <==>
                old(MarkOf(Table(), s, n)).None? && old(count) == MAX_ENTRIES
                && (forall i :: 0 <= i < MAX_ENTRIES ==> old(entries[i]).session == s)
      ensures v.PersistFailed? ==> !persists
      ensures v.Accepted? ==> persists && Raised(old(Table()), Table(), s, n, q)
      ensures !v.Accepted? ==> Table() == old(Table()) && file == old(file)
    {
      hide Raised, DistinctMarks, LinesOf, MarkOf;
      var i := FindMark(s, n);
      if i < count {
        MarkIsUnique(Table(), i);
        if q <= entries[i].lastSeq {
          return ReplayDetected;
        }
        RaiseInPlace(Table(), i, Mark(s, n, q, tick + 1));
        v := Overwrite(i, s, n, q, persists);
        return;
      }
      if count < MAX_ENTRIES {
        v := AddMark(s, n, q, persists);
        return;
      }
      var victim := PickVictim(s);
      if victim.None? {
        return StoreExhausted;
      }
      RaiseByEvicting(Table(), victim.value, Mark(s, n, q, tick + 1));
      v := Overwrite(victim.value, s, n, q, persists);
    }
  }

  ghost predicate DistinctLines(lines: seq<Line>) {
    forall i, j :: 0 <= i < j < |lines| ==> !(lines[i].session == lines[j].session && lines[i].node == lines[j].node)
  }

  // ---- whole runs of a verifier ----

  /** What happens to a verifier: an observation passes checks 1 to 6 and asks
      to be accepted, the process restarts, or a new session is bound. */
  datatype Event = Offer(node: Node, seqNo: nat, persists: bool) | Restart | Bind(session: Session)

  datatype Attempt = Attempt(session: Session, node: Node, seqNo: nat, persists: bool, verdict: Verdict)

  /** The unbounded store: the highest sequence number ever accepted. */
  ghost function Highest(log: seq<Attempt>, s: Session, n: Node): Option<nat> {
    if log == [] then None
    else
      var last, rest := log[|log| - 1], Highest(log[..|log| - 1], s, n);
      if last.verdict.Accepted? && last.session == s && last.node == n && (rest.None? || rest.value < last.seqNo)
      then Some(last.seqNo) else rest
  }

  ghost function NodesAccepted(log: seq<Attempt>, s: Session): set<Node> {
    set a | a in log && a.verdict.Accepted? && a.session == s :: a.node
  }

  /** The verdict the unbounded store would give, except that a bounded store
      may refuse a new node when 128 others of the session are marked, and that
      an acceptance that cannot be persisted is withdrawn. */
  ghost predicate Judged(a: Attempt, before: seq<Attempt>) {
    var high := Highest(before, a.session, a.node);
    && (a.verdict.ReplayDetected? <==> high.Some? && a.seqNo <= high.value)
    && (a.verdict.StoreExhausted? ==> high.None? && |NodesAccepted(before, a.session)| >= MAX_ENTRIES)
    && (a.verdict.PersistFailed? ==> !a.persists)
    && (a.verdict.Accepted? ==> a.persists)
  }

  ghost predicate Refines(log: seq<Attempt>) {
    forall k :: 0 <= k < |log| ==> Judged(log[k], log[..k])
  }

  /** The session bound after `events`. */
  function BoundAfter(first: Session, events: seq<Event>): Session {
    if events == [] then first
    else if events[|events| - 1].Bind? then events[|events| - 1].session
    else BoundAfter(first, events[..|events| - 1])
  }

  /** The acceptance requests an event sequence makes, in order. */
  function Requests(first: Session, events: seq<Event>): seq<(Session, Node, nat, bool)> {
    if events == [] then []
    else
      var init, last := events[..|events| - 1], events[|events| - 1];
      if last.Offer?
      then Requests(first, init) + [(BoundAfter(first, init), last.node, last.seqNo, last.persists)]
      else Requests(first, init)
  }

  function RequestsIn(log: seq<Attempt>): seq<(Session, Node, nat, bool)> {
    seq(|log|, i requires 0 <= i < |log| => (log[i].session, log[i].node, log[i].seqNo, log[i].persists))
  }

  /** Session ids are fresh: none is bound a second time. */
  ghost predicate FreshSessions(first: Session, events: seq<Event>) {
    && (forall i :: 0 <= i < |events| && events[i].Bind? ==> events[i].session != first)
    && (forall i, j :: 0 <= i < j < |events| && events[i].Bind? && events[j].Bind? ==> events[i].session != events[j].session)
  }

  ghost predicate Agrees(t: seq<Mark>, log: seq<Attempt>, s: Session) {
    forall n :: MarkOf(t, s, n) == Highest(log, s, n)
  }

  ghost predicate OnlySessions(t: seq<Mark>, log: seq<Attempt>, seen: set<Session>) {
    && (forall i :: 0 <= i < |t| ==> t[i].session in seen)
    && (forall i :: 0 <= i < |log| ==> log[i].session in seen)
  }

  lemma HighestOnlySeen(log: seq<Attempt>, s: Session, n: Node)
    requires forall i :: 0 <= i < |log| ==> log[i].session != s
    ensures Highest(log, s, n).None?
  {
  }

  lemma HighestAfter(log: seq<Attempt>, a: Attempt, s: Session, n: Node)
    ensures var rest := Highest(log, s, n);
            Highest(log + [a], s, n)
            == if a.verdict.Accepted? && a.session == s && a.node == n && (rest.None? || rest.value < a.seqNo)
               then Some(a.seqNo) else rest
  {
    assert (log + [a])[..|log|] == log;
  }

  lemma {:induction false} AcceptedNodeIsHigh(log: seq<Attempt>, s: Session, n: Node)
    ensures Highest(log, s, n).Some? <==> n in NodesAccepted(log, s)
  {
    if log != [] {
      var init := log[..|log| - 1];
      AcceptedNodeIsHigh(init, s, n);
      assert log == init + [log[|log| - 1]];
    }
  }

  /** A full table of one session's marks means 128 of its nodes were accepted. */
  lemma FullTableMeansManyNodes(t: seq<Mark>, log: seq<Attempt>, s: Session)
    requires DistinctMarks(t) && Agrees(t, log, s)
    requires forall i :: 0 <= i < |t| ==> t[i].session == s
    ensures |NodesAccepted(log, s)| >= |t|
  {
    var nodes := set i | 0 <= i < |t| :: t[i].node;
    forall n | n in nodes ensures n in NodesAccepted(log, s) {
      var i :| 0 <= i < |t| && t[i].node == n;
      MarkIsUnique(t, i);
      AcceptedNodeIsHigh(log, s, n);
    }
    NodesInTable(t, s);
    SubsetSize(nodes, NodesAccepted(log, s));
  }

  lemma NodesInTable(t: seq<Mark>, s: Session)
    requires DistinctMarks(t) && forall i :: 0 <= i < |t| ==> t[i].session == s
    ensures |set i | 0 <= i < |t| :: t[i].node| == |t|
  {
    if t != [] {
      var last := |t| - 1;
      NodesInTable(t[..last], s);
      var before := set i | 0 <= i < last :: t[..last][i].node;
      assert (set i | 0 <= i < |t| :: t[i].node) == before + {t[last].node};
      assert t[last].node !in before;
    }
  }

  lemma SubsetSize<T>(a: set<T>, b: set<T>)
    requires a <= b
    ensures |a| <= |b|
  {
    assert b == a + (b - a);
  }

  lemma AcceptKeepsAgreement(t: seq<Mark>, t': seq<Mark>, log: seq<Attempt>, a: Attempt)
    requires Agrees(t, log, a.session) && Judged(a, log)
    requires a.verdict.Accepted? ==> Raised(t, t', a.session, a.node, a.seqNo)
    requires !a.verdict.Accepted? ==> t' == t
    ensures Agrees(t', log + [a], a.session)
  {
    forall n ensures MarkOf(t', a.session, n) == Highest(log + [a], a.session, n) {
      HighestAfter(log, a, a.session, n);
    }
  }

  lemma ReloadKeepsMarks(t: seq<Mark>, t': seq<Mark>, s: Session, n: Node)
    requires DistinctMarks(t) && DistinctMarks(t') && LinesOf(t) == LinesOf(t')
    ensures MarkOf(t', s, n) == MarkOf(t, s, n)
  {
    assert |LinesOf(t)| == |t| && |LinesOf(t')| == |t'|;
    forall i | 0 <= i < |t| ensures t[i].session == t'[i].session && t[i].node == t'[i].node && t[i].lastSeq == t'[i].lastSeq {
      assert LinesOf(t)[i] == LinesOf(t')[i];
    }
    if i :| 0 <= i < |t| && t[i].session == s && t[i].node == n {
      MarkIsUnique(t, i);
      MarkIsUnique(t', i);
    }
  }

  /** One acceptance request against the store, logged. */
  method Judge(store: Store, s: Session, e: Event, log: seq<Attempt>) returns (log': seq<Attempt>)
    requires store.Valid() && e.Offer? && Refines(log) && Agrees(store.Table(), log, s)
    modifies store, store.entries
    ensures store.Valid() && Refines(log') && Agrees(store.Table(), log', s)
    ensures |log'| == |log| + 1 && log <= log'
    ensures RequestsIn(log') == RequestsIn(log) + [(s, e.node, e.seqNo, e.persists)]
    ensures log'[|log|].session == s
    ensures forall i :: 0 <= i < |store.Table()| ==> store.Table()[i].session == s || store.Table()[i] in old(store.Table())
  {
    ghost var before := store.Table();
    var v := store.Accept(s, e.node, e.seqNo, e.persists);
    var a := Attempt(s, e.node, e.seqNo, e.persists, v);
    if v.StoreExhausted? {
      FullTableMeansManyNodes(before, log, s);
    }
    assert Judged(a, log);
    AcceptKeepsAgreement(before, store.Table(), log, a);
    log' := log + [a];
    forall k | 0 <= k < |log'| ensures Judged(log'[k], log'[..k]) {
      assert log'[..k] == if k < |log| then log[..k] else log;
    }
  }

  ghost function SeenAfter(first: Session, events: seq<Event>): set<Session> {
    if events == [] then {first}
    else
      var init, last := events[..|events| - 1], events[|events| - 1];
      if last.Bind? then SeenAfter(first, init) + {last.session} else SeenAfter(first, init)
  }

  lemma {:induction false} SeenWasBound(first: Session, events: seq<Event>)
    ensures forall s :: s in SeenAfter(first, events) ==>
              s == first || exists i :: 0 <= i < |events| && events[i] == Bind(s)
    ensures BoundAfter(first, events) in SeenAfter(first, events)
  {
    if events != [] {
      SeenWasBound(first, events[..|events| - 1]);
    }
  }

  /** What holds between events, whichever came before. */
  ghost predicate LifeOk(store: Store, log: seq<Attempt>, first: Session, past: seq<Event>)
    reads store, store.entries
  {
    && store.Valid()
    && Refines(log)
    && Agrees(store.Table(), log, BoundAfter(first, past))
    && OnlySessions(store.Table(), log, SeenAfter(first, past))
    && RequestsIn(log) == Requests(first, past)
  }

  method Live(store: Store, log: seq<Attempt>, ghost first: Session, bound: Session, ghost past: seq<Event>, e: Event)
    returns (store': Store, log': seq<Attempt>)
    requires LifeOk(store, log, first, past) && bound == BoundAfter(first, past)
    requires e.Bind? ==> e.session !in SeenAfter(first, past)
    modifies store, store.entries
    ensures LifeOk(store', log', first, past + [e])
    ensures store' == store || (fresh(store') && fresh(store'.entries))
  {
    hide Refines;
    hide Agrees;
    store', log' := store, log;
    assert (past + [e])[..|past|] == past;
    SeenWasBound(first, past);
    match e
    case Offer(_, _, _) =>
      log' := Judge(store, bound, e, log);
    case Restart =>
      FileIsLoadable(store.Table());
      store' := new Store(store.file);
      assert store.file[..|store.file|] == store.file;
      Reloaded(store.Table(), store'.Table(), log, bound, SeenAfter(first, past));
    case Bind(session) =>
      BoundFresh(store.Table(), log, session, SeenAfter(first, past));
  }

  /** The life of a verifier with a file-backed store. */
  method VerifierLife(first: Session, events: seq<Event>) returns (log: seq<Attempt>)
    requires FreshSessions(first, events)
    ensures Refines(log)
    ensures RequestsIn(log) == Requests(first, events)
  {
    log := [];
    var store := new Store([]);
    var bound := first;
    BoundFresh(store.Table(), log, first, {});
    assert events[..0] == [];
    assert LifeOk(store, log, first, events[..0]);
    hide LifeOk;
    for k := 0 to |events|
      invariant LifeOk(store, log, first, events[..k]) && fresh(store) && fresh(store.entries)
      invariant bound == BoundAfter(first, events[..k])
    {
      assert events[..k + 1] == events[..k] + [events[k]];
      assert events[..k + 1][..k] == events[..k];
      SeenWasBound(first, events[..k]);
      store, log := Live(store, log, first, bound, events[..k], events[k]);
      if events[k].Bind? {
        bound := events[k].session;
      }
    }
    assert events[..|events|] == events;
    LifeEnds(store, log, first, events);
  }

  lemma LifeEnds(store: Store, log: seq<Attempt>, first: Session, past: seq<Event>)
    requires LifeOk(store, log, first, past)
    ensures Refines(log) && RequestsIn(log) == Requests(first, past)
  {
  }

  lemma BoundFresh(t: seq<Mark>, log: seq<Attempt>, s: Session, seen: set<Session>)
    requires OnlySessions(t, log, seen) && s !in seen
    ensures Agrees(t, log, s) && OnlySessions(t, log, seen + {s})
  {
    forall n ensures MarkOf(t, s, n) == Highest(log, s, n) {
      HighestOnlySeen(log, s, n);
    }
  }

  lemma FileIsLoadable(t: seq<Mark>)
    requires DistinctMarks(t)
    ensures DistinctLines(LinesOf(t))
  {
  }

  lemma Reloaded(t: seq<Mark>, t': seq<Mark>, log: seq<Attempt>, s: Session, seen: set<Session>)
    requires DistinctMarks(t) && DistinctMarks(t') && LinesOf(t) == LinesOf(t')
    requires Agrees(t, log, s) && OnlySessions(t, log, seen)
    ensures Agrees(t', log, s) && OnlySessions(t', log, seen)
  {
    forall n ensures MarkOf(t', s, n) == Highest(log, s, n) {
      ReloadKeepsMarks(t, t', s, n);
    }
    assert |LinesOf(t)| == |t| && |LinesOf(t')| == |t'|;
    forall i | 0 <= i < |t'| ensures t'[i].session in seen {
      assert LinesOf(t)[i] == LinesOf(t')[i];
    }
  }

  /** Over any such life, what is accepted for a session and node strictly
      increases, so no (session, node, sequence) is ever accepted twice. */
  lemma AcceptedStrictlyIncreases(log: seq<Attempt>, i: nat, j: nat)
    requires Refines(log) && i < j < |log|
    requires log[i].verdict.Accepted? && log[j].verdict.Accepted?
    requires log[i].session == log[j].session && log[i].node == log[j].node
    ensures log[i].seqNo < log[j].seqNo
  {
    AcceptedIsBelowHighest(log[..j], i);
    assert Judged(log[j], log[..j]);
  }

  lemma {:induction false} AcceptedIsBelowHighest(log: seq<Attempt>, i: nat)
    requires i < |log| && log[i].verdict.Accepted?
    ensures var high := Highest(log, log[i].session, log[i].node);
            high.Some? && log[i].seqNo <= high.value
  {
    if i < |log| - 1 {
      AcceptedIsBelowHighest(log[..|log| - 1], i);
    }
  }
}
