/** The O-node side: complete spool jobs are relayed into the append-only chain.
    The process may die between durable writes, the daemon may commit an append
    and the acknowledgement be lost, sidecars may be lost or stale, and the
    chain database may be unreadable. */
module SpoolRelay {
  import opened Prelude
  import opened CameraRecords
  import Json
  import Retention = RetentionRecord

  /** The bytes of a `.body` file, by what they parse to. */
  datatype Wire =
    | SegmentRecord(body: Body)
    | RetentionRecord(record: Json.Value)
    | Unrecognised(text: Bytes)

  /** The name a job's files share in incoming/. */
  datatype Name = SegmentJob(seqNo: nat) | RetentionJob(camera: string, deletedAt: int, chunk: nat)

  /** A shipped job: its body and, for a segment record, the segment's bytes. */
  datatype Parcel = Parcel(wire: Wire, segment: Option<Bytes>)

  /** A job the relay can submit: a segment record with the very bytes it
      commits to, or a well-formed record that travels alone. */
  predicate Sound(p: Parcel) {
    match p.wire
    case SegmentRecord(b) => p.segment.Some? && b.sha == Sha256(p.segment.value)
    case RetentionRecord(record) => p.segment.None? && Retention.WellFormed(record)
    case Unrecognised(_) => false
  }

  datatype Answer = OnChain | NotOnChain | Unknown

  datatype Reply = Acked | Refused | Raised

  datatype Route = AlreadyAttested | RestoreSidecar | MustAppend

  datatype Outcome = Landed | NotLanded | Failed | Died

  // ---- the decision before an append ----

  /** submit_one: the chain outranks a sidecar whenever it can be consulted. */
  function RouteSegment(sidecar: bool, first: Answer, second: Answer): Route {
    if sidecar && !first.NotOnChain? then AlreadyAttested
    else if second.OnChain? then RestoreSidecar
    else MustAppend
  }

  /** submit_record_only asks once: with a sidecar, or instead of one. */
  function RouteRecordOnly(sidecar: bool, answer: Answer): Route {
    if sidecar then (if answer.NotOnChain? then MustAppend else AlreadyAttested)
    else if answer.OnChain? then RestoreSidecar
    else MustAppend
  }

  predicate Truthful(answer: Answer, present: bool) {
    answer.Unknown? || answer == (if present then OnChain else NotOnChain)
  }

  /** Exactly when the relay can err, over all answers a database may give: it
      reports a record that is not on the chain only for a stale sidecar whose
      query failed, and appends one that is there only when no sidecar exists
      and the query failed. */
  lemma RouteErrsExactlyWhenUnreadable(present: bool, sidecar: bool, first: Answer, second: Answer)
    requires Truthful(first, present) && Truthful(second, present)
    ensures !RouteSegment(sidecar, first, second).MustAppend? && !present
            <==> !present && sidecar && first.Unknown?
    ensures RouteSegment(sidecar, first, second).MustAppend? && present
            <==> present && !sidecar && second.Unknown?
    ensures !RouteRecordOnly(sidecar, first).MustAppend? && !present
            <==> !present && sidecar && first.Unknown?
    ensures RouteRecordOnly(sidecar, first).MustAppend? && present
            <==> present && !sidecar && first.Unknown?
  {
  }

  // ---- the relay ----

  ghost predicate NoDuplicates(chain: seq<Wire>) {
    forall i, j :: 0 <= i < j < |chain| ==> chain[i] != chain[j]
  }

  /** Once the chain commits to a segment its bytes are already stored. */
  ghost predicate EvidenceKept(chain: seq<Wire>, artifacts: set<Bytes>) {
    forall w :: w in chain && w.SegmentRecord? ==> w.body.sha.preimage in artifacts
  }

  // ---- what incoming/ and the chain hold, as values ----

  /** Files in incoming/ are what was shipped under their names. */
  ghost predicate FilesMatch(jobs: map<Name, Parcel>, segments: map<Name, Bytes>, bodies: map<Name, Wire>) {
    && (forall n :: n in bodies ==> n in jobs && bodies[n] == jobs[n].wire)
    && (forall n :: n in segments ==> n in jobs && jobs[n].segment == Some(segments[n]))
  }

  ghost predicate Shipped(jobs: map<Name, Parcel>, w: Wire) { exists n :: n in jobs && jobs[n].wire == w }

  ghost predicate ChainShipped(jobs: map<Name, Parcel>, chain: seq<Wire>) {
    forall w :: w in chain ==> Shipped(jobs, w)
  }

  /** The whole job is in incoming/. */
  ghost predicate Whole(n: Name, p: Parcel, segments: map<Name, Bytes>, bodies: map<Name, Wire>, markers: set<Name>) {
    n in markers && n in bodies && (p.segment.Some? ==> n in segments)
  }

  /** No delivered job is lost: it is on the chain, or whole in incoming/. */
  ghost predicate NoneLost(jobs: map<Name, Parcel>, delivered: set<Name>, segments: map<Name, Bytes>,
                           bodies: map<Name, Wire>, markers: set<Name>, chain: seq<Wire>)
  {
    && delivered <= jobs.Keys
    && forall n :: n in delivered ==> jobs[n].wire in chain || Whole(n, jobs[n], segments, bodies, markers)
  }

  lemma FilesAfterReceive(jobs: map<Name, Parcel>, segments: map<Name, Bytes>, bodies: map<Name, Wire>, name: Name)
    requires FilesMatch(jobs, segments, bodies) && name in jobs
    ensures FilesMatch(jobs, ReceivedSegments(jobs, segments, name), bodies[name := jobs[name].wire])
  {
  }

  function ReceivedSegments(jobs: map<Name, Parcel>, segments: map<Name, Bytes>, name: Name): map<Name, Bytes>
    requires name in jobs
  {
    if jobs[name].segment.Some? then segments[name := jobs[name].segment.value] else segments
  }

  lemma NoneLostAfterReceive(jobs: map<Name, Parcel>, delivered: set<Name>, segments: map<Name, Bytes>,
                             bodies: map<Name, Wire>, markers: set<Name>, chain: seq<Wire>, name: Name)
    requires NoneLost(jobs, delivered, segments, bodies, markers, chain) && name in jobs
    ensures var segments', bodies' := ReceivedSegments(jobs, segments, name), bodies[name := jobs[name].wire];
      && NoneLost(jobs, delivered, segments', bodies', markers, chain)
      && NoneLost(jobs, delivered + {name}, segments', bodies', markers + {name}, chain)
  {
    var segments', bodies' := ReceivedSegments(jobs, segments, name), bodies[name := jobs[name].wire];
    forall n | n in delivered ensures jobs[n].wire in chain || Whole(n, jobs[n], segments', bodies', markers) {
      assert jobs[n].wire in chain || Whole(n, jobs[n], segments, bodies, markers);
    }
  }

  lemma ChainShippedAfter(jobs: map<Name, Parcel>, chain: seq<Wire>, chain': seq<Wire>, name: Name)
    requires ChainShipped(jobs, chain) && name in jobs
    requires chain' == chain || chain' == chain + [jobs[name].wire]
    ensures ChainShipped(jobs, chain')
  {
    hide Shipped;
    ShippedUnderAName(jobs, name);
  }

  lemma ShippedUnderAName(jobs: map<Name, Parcel>, name: Name)
    requires name in jobs
    ensures Shipped(jobs, jobs[name].wire)
  {
  }

  /** A job may leave incoming/ piece by piece once its body is on the chain. */
  lemma NoneLostAfterMove(jobs: map<Name, Parcel>, delivered: set<Name>, segments: map<Name, Bytes>, bodies: map<Name, Wire>,
                          markers: set<Name>, chain: seq<Wire>, name: Name, segments': map<Name, Bytes>,
                          bodies': map<Name, Wire>, markers': set<Name>, chain': seq<Wire>)
    requires NoneLost(jobs, delivered, segments, bodies, markers, chain) && name in jobs && chain <= chain'
    requires segments' == segments || (segments' == segments - {name} && jobs[name].wire in chain')
    requires bodies' == bodies || (bodies' == bodies - {name} && jobs[name].wire in chain')
    requires markers' == markers || (markers' == markers - {name} && jobs[name].wire in chain')
    ensures NoneLost(jobs, delivered, segments', bodies', markers', chain')
  {
    forall n | n in delivered ensures jobs[n].wire in chain' || Whole(n, jobs[n], segments', bodies', markers') {
      assert jobs[n].wire in chain || Whole(n, jobs[n], segments, bodies, markers);
    }
  }

  lemma FilesAfterMove(jobs: map<Name, Parcel>, segments: map<Name, Bytes>, bodies: map<Name, Wire>, name: Name,
                       segments': map<Name, Bytes>, bodies': map<Name, Wire>)
    requires FilesMatch(jobs, segments, bodies)
    requires segments' == segments || segments' == segments - {name}
    requires bodies' == bodies || bodies' == bodies - {name}
    ensures FilesMatch(jobs, segments', bodies')
  {
  }

  class Relay {
    var segments: map<Name, Bytes>
    var bodies: map<Name, Wire>
    var markers: set<Name>
    var artifacts: set<Bytes>
    var sidecars: set<Wire>
    var chain: seq<Wire>
    var readable: bool  // the chain database can be consulted
    var calm: bool      // nothing dies, fails or is refused

    constructor ()
      ensures segments == map[] && bodies == map[] && markers == {}
      ensures artifacts == {} && sidecars == {} && chain == [] && readable && !calm
      ensures NoDuplicates(chain) && EvidenceKept(chain, artifacts)
    {
      segments, bodies, markers := map[], map[], {};
      artifacts, sidecars, chain, readable, calm := {}, {}, [], true, false;
    }

    method Dies() returns (now: bool)
      ensures calm ==> !now
    {
      var killed: bool := *;
      now := killed && !calm;
    }

    /** The read-only membership query; it may fail unless the database is
        readable throughout. */
    method Query(w: Wire) returns (answer: Answer)
      ensures Truthful(answer, w in chain)
      ensures readable ==> !answer.Unknown?
    {
      var fails: bool := *;
      if fails && !readable {
        return Unknown;
      }
      return if w in chain then OnChain else NotOnChain;
    }

    /** chain_append over the socket: refused, acknowledged, or an exception
        raised before or after the commit. */
    method Append(w: Wire) returns (reply: Reply)
      modifies this`chain
      ensures chain == old(chain) || chain == old(chain) + [w]
      ensures reply.Acked? ==> chain == old(chain) + [w]
      ensures reply.Refused? ==> chain == old(chain)
      ensures calm ==> reply.Acked?
    {
      var refused: bool, committed: bool, acked: bool := *, *, *;
      if calm {
        refused, committed, acked := false, true, true;
      }
      if refused {
        return Refused;
      }
      if committed {
        chain := chain + [w];
      }
      return if committed && acked then Acked else Raised;
    }

    /** The write and the receipt, after the decision to append. */
    method AppendAndReceipt(w: Wire) returns (outcome: Outcome)
      modifies this`chain, this`sidecars
      ensures chain == old(chain) || chain == old(chain) + [w]
      ensures outcome.Landed? ==> w in chain
      ensures calm ==> outcome.Landed?
    {
      var dead := Dies();
      if dead { return Died; }
      var reply := Append(w);
      if reply.Raised? { return Failed; }
      if reply.Refused? { return NotLanded; }
      dead := Dies();
      if dead { return Died; }
      sidecars := sidecars + {w};
      return Landed;
    }

    method SubmitOne(name: Name) returns (outcome: Outcome)
      requires name in bodies && name in segments
      modifies this`chain, this`sidecars, this`artifacts
      ensures chain == old(chain) || chain == old(chain) + [bodies[name]]
      ensures readable && bodies[name] in old(chain) ==> chain == old(chain)
      ensures outcome.Landed? ==> bodies[name] in chain || (!readable && bodies[name] in old(sidecars))
      ensures old(artifacts) <= artifacts
      ensures EvidenceKept(old(chain), old(artifacts)) ==> EvidenceKept(chain, artifacts)
      ensures !Sound(Parcel(bodies[name], Some(segments[name]))) ==> outcome.Failed? && chain == old(chain)
      ensures calm && Sound(Parcel(bodies[name], Some(segments[name]))) ==> outcome.Landed?
      ensures calm ==> !outcome.Died?
    {
      var w := bodies[name];
      if !w.SegmentRecord? {
        return Failed;
      }
      if Sha256(segments[name]) != w.body.sha {
        return Failed;
      }
      var first := Unknown;
      if w in sidecars {
        first := Query(w);
      }
      var second := Query(w);
      match RouteSegment(w in sidecars, first, second)
      case AlreadyAttested =>
        return Landed;
      case RestoreSidecar =>
        var dead := Dies();
        if dead { return Died; }
        sidecars := sidecars + {w};
        return Landed;
      case MustAppend =>
        var dead := Dies();
        if dead { return Died; }
        artifacts := artifacts + {segments[name]};
        outcome := AppendAndReceipt(w);
    }

    method SubmitRecordOnly(name: Name) returns (outcome: Outcome)
      requires name in bodies
      modifies this`chain, this`sidecars
      ensures chain == old(chain) || chain == old(chain) + [bodies[name]]
      ensures readable && bodies[name] in old(chain) ==> chain == old(chain)
      ensures outcome.Landed? ==> bodies[name] in chain || (!readable && bodies[name] in old(sidecars))
      ensures EvidenceKept(old(chain), artifacts) ==> EvidenceKept(chain, artifacts)
      ensures !Sound(Parcel(bodies[name], None)) ==> outcome.Failed? && chain == old(chain)
      ensures calm && Sound(Parcel(bodies[name], None)) ==> outcome.Landed?
      ensures calm ==> !outcome.Died?
    {
      var w := bodies[name];
      if !w.RetentionRecord? {
        return Failed;
      }
      var defect := Retention.RetentionDefect(w.record);
      if defect.Some? {
        return Failed;
      }
      var answer := Query(w);
      match RouteRecordOnly(w in sidecars, answer)
      case AlreadyAttested =>
        return Landed;
      case RestoreSidecar =>
        var dead := Dies();
        if dead { return Died; }
        sidecars := sidecars + {w};
        return Landed;
      case MustAppend =>
        outcome := AppendAndReceipt(w);
    }

    /** A landed job leaves incoming/ one rename at a time, the marker last. */
    method MoveToDone(name: Name) returns (alive: bool)
      modifies this`segments, this`bodies, this`markers
      ensures bodies == old(bodies) || bodies == old(bodies) - {name}
      ensures segments == old(segments) || segments == old(segments) - {name}
      ensures markers == old(markers) || markers == old(markers) - {name}
      ensures calm ==> alive
    {
      var dead := Dies();
      if dead { return false; }
      segments := segments - {name};
      dead := Dies();
      if dead { return false; }
      bodies := bodies - {name};
      dead := Dies();
      if dead { return false; }
      markers := markers - {name};
      return true;
    }

    ghost predicate Complete(n: Name, p: Parcel)
      reads this
    {
      Whole(n, p, segments, bodies, markers)
    }

    ghost predicate Honours(jobs: map<Name, Parcel>, delivered: set<Name>)
      reads this
    {
      && FilesMatch(jobs, segments, bodies)
      && ChainShipped(jobs, chain)
      && NoneLost(jobs, delivered, segments, bodies, markers, chain)
      && EvidenceKept(chain, artifacts)
    }

    /** Submit the job under one marker, choosing by the body's own schema. */
    method SubmitJob(name: Name) returns (outcome: Outcome)
      requires name in bodies
      modifies this`chain, this`sidecars, this`artifacts
      ensures chain == old(chain) || chain == old(chain) + [bodies[name]]
      ensures readable && bodies[name] in old(chain) ==> chain == old(chain)
      ensures outcome.Landed? ==> bodies[name] in chain || (!readable && bodies[name] in old(sidecars))
      ensures EvidenceKept(old(chain), old(artifacts)) ==> EvidenceKept(chain, artifacts)
      ensures calm && Sound(Parcel(bodies[name], if name in segments then Some(segments[name]) else None)) ==> outcome.Landed?
      ensures calm ==> !outcome.Died?
    {
      hide EvidenceKept;
      if name in segments {
        outcome := SubmitOne(name);
      } else if bodies[name].RetentionRecord? {
        outcome := SubmitRecordOnly(name);
      } else {
        outcome := NotLanded;
      }
    }

    method RelayJob(jobs: map<Name, Parcel>, ghost delivered: set<Name>, name: Name) returns (alive: bool)
      requires readable && name in bodies && Honours(jobs, delivered) && NoDuplicates(chain)
      modifies this`chain, this`sidecars, this`artifacts, this`segments, this`bodies, this`markers
      ensures Honours(jobs, delivered) && NoDuplicates(chain) && old(chain) <= chain
      ensures markers <= old(markers) && forall n :: n != name && n in jobs && old(Complete(n, jobs[n])) ==> Complete(n, jobs[n])
      ensures calm ==> alive && (old(Complete(name, jobs[name])) && Sound(jobs[name]) ==> jobs[name].wire in chain)
    {
      hide EvidenceKept, FilesMatch, ChainShipped, NoneLost, Sound;
      BodyIsShipped(jobs, name);
      ghost var segments0, bodies0, markers0, chain0 := segments, bodies, markers, chain;
      var outcome := SubmitJob(name);
      ChainShippedAfter(jobs, chain0, chain, name);
      AppendedOnce(chain0, chain, jobs[name].wire);
      if outcome.Landed? {
        alive := MoveToDone(name);
      } else {
        alive := !outcome.Died?;
      }
      FilesAfterMove(jobs, segments0, bodies0, name, segments, bodies);
      NoneLostAfterMove(jobs, delivered, segments0, bodies0, markers0, chain0, name, segments, bodies, markers, chain);
      if markers0 != markers { assert markers == markers0 - {name}; }
    }

    lemma BodyIsShipped(jobs: map<Name, Parcel>, name: Name)
      requires FilesMatch(jobs, segments, bodies) && name in bodies
      ensures name in jobs && bodies[name] == jobs[name].wire
      ensures Complete(name, jobs[name]) && Sound(jobs[name]) ==>
        Sound(Parcel(bodies[name], if name in segments then Some(segments[name]) else None))
    {
      assert Sound(jobs[name]) && jobs[name].segment.None? ==> name !in segments;
    }

    /** One pass over the markers, any order. */
    method Pass(jobs: map<Name, Parcel>, ghost delivered: set<Name>) returns (alive: bool)
      requires readable && delivered <= jobs.Keys && Honours(jobs, delivered) && NoDuplicates(chain)
      modifies this`chain, this`sidecars, this`artifacts, this`segments, this`bodies, this`markers
      ensures Honours(jobs, delivered) && NoDuplicates(chain) && old(chain) <= chain
      ensures calm ==> forall n :: n in delivered && Sound(jobs[n]) ==> jobs[n].wire in chain
    {
      hide NoDuplicates, EvidenceKept, FilesMatch, ChainShipped, Sound;
      var todo := markers;
      alive := true;
      while todo != {} && alive
        invariant Honours(jobs, delivered) && NoDuplicates(chain) && old(chain) <= chain
        invariant markers <= old(markers)
        invariant calm ==> alive && forall n :: n in delivered && n !in todo && Sound(jobs[n]) ==> jobs[n].wire in chain
        decreases |todo|
      {
        var name :| name in todo;
        todo := todo - {name};
        if name in bodies {
          alive := RelayJob(jobs, delivered, name);
        }
      }
    }

    /** A delivery by the capture host, complete only once the marker is there;
        redelivery rewrites the same files. */
    method Receive(jobs: map<Name, Parcel>, name: Name, ghost delivered: set<Name>) returns (complete: bool)
      requires Honours(jobs, delivered) && name in jobs
      modifies this`segments, this`bodies, this`markers
      ensures Honours(jobs, if complete then delivered + {name} else delivered)
    {
      hide EvidenceKept, FilesMatch, ChainShipped, NoneLost;
      FilesAfterReceive(jobs, segments, bodies, name);
      NoneLostAfterReceive(jobs, delivered, segments, bodies, markers, chain, name);
      var interrupted: bool := *;
      if interrupted { return false; }
      if jobs[name].segment.Some? {
        segments := segments[name := jobs[name].segment.value];
      }
      bodies := bodies[name := jobs[name].wire];
      interrupted := *;
      if interrupted { return false; }
      markers := markers + {name};
      return true;
    }

    /** Sidecars are local files: they may vanish, or describe an entry that a
        restored database no longer holds. */
    method DisturbSidecars()
      modifies this`sidecars
    {
      var w: Wire := *;
      var planted: bool := *;
      sidecars := if planted then sidecars + {w} else sidecars - {w};
    }
  }

  lemma AppendedOnce(chain: seq<Wire>, chain': seq<Wire>, w: Wire)
    requires NoDuplicates(chain) && (chain' == chain || (w !in chain && chain' == chain + [w]))
    ensures NoDuplicates(chain')
  {
  }

  // ---- whole runs ----

  /** Any interleaving of deliveries, redeliveries, passes killed anywhere, and
      damage to the sidecars, over a readable chain. Every chain entry is a
      shipped body, none appears twice, and a delivered body is on the chain or
      still whole in incoming/, from where one undisturbed pass brings every
      sound job onto the chain. */
  method RelayLifetime(jobs: map<Name, Parcel>, steps: nat, settle: bool)
    returns (chain: seq<Wire>, delivered: set<Name>, waiting: set<Name>)
    ensures NoDuplicates(chain)
    ensures forall w :: w in chain ==> exists n :: n in jobs && jobs[n].wire == w
    ensures delivered <= jobs.Keys
    ensures forall n :: n in delivered && n !in waiting ==> jobs[n].wire in chain
    ensures settle ==> forall n :: n in delivered && Sound(jobs[n]) ==> jobs[n].wire in chain
  {
    hide NoDuplicates, EvidenceKept, FilesMatch, ChainShipped, Sound;
    var relay := new Relay();
    NothingYet(jobs);
    delivered := {};
    for i := 0 to steps
      invariant relay.readable && delivered <= jobs.Keys
      invariant relay.Honours(jobs, delivered) && NoDuplicates(relay.chain)
    {
      var name: Name := *;
      var arrives: bool := *;
      if arrives && name in jobs {
        var complete := relay.Receive(jobs, name, delivered);
        if complete {
          delivered := delivered + {name};
        }
      }
      relay.DisturbSidecars();
      var alive := relay.Pass(jobs, delivered);
    }
    if settle {
      relay.calm := true;
      var alive := relay.Pass(jobs, delivered);
    }
    chain, waiting := relay.chain, relay.markers;
    ChainIsShipped(jobs, chain);
  }

  lemma NothingYet(jobs: map<Name, Parcel>)
    ensures FilesMatch(jobs, map[], map[]) && ChainShipped(jobs, [])
  {
  }

  lemma ChainIsShipped(jobs: map<Name, Parcel>, chain: seq<Wire>)
    requires ChainShipped(jobs, chain)
    ensures forall w :: w in chain ==> exists n :: n in jobs && jobs[n].wire == w
  {
    forall w | w in chain ensures exists n :: n in jobs && jobs[n].wire == w { assert Shipped(jobs, w); }
  }
}
