/**
 Claim exclusivity, truthful statuses and no lost rows, for any number of publishers and any interleaving.
 */
module OutboxProofs {
  import opened Outbox

  lemma SoundInsert(s: State, e: Step)
    requires Sound(s) && e.Insert?
    ensures Sound(Apply(s, e))
  {
    var s' := Apply(s, e);
    var n := |s.events|;
    forall p | 0 <= p < |s'.publishers|
      ensures PublisherSound(s', s'.publishers[p])
    {
      assert PublisherSound(s, s.publishers[p]);
    }
    forall id | 0 <= id < n
      ensures Truthful(s', id)
    {
      assert Truthful(s, id);
      if InHand(s, id) {
        assert InHand(s', id);
      }
    }
  }

  lemma SoundStart(s: State)
    requires Sound(s)
    ensures Sound(Apply(s, Start))
  {
    var s' := Apply(s, Start);
    forall p | 0 <= p < |s'.publishers|
      ensures PublisherSound(s', s'.publishers[p])
    {
      if p < |s.publishers| {
        assert PublisherSound(s, s.publishers[p]);
      }
    }
    forall id | 0 <= id < |s.events|
      ensures Truthful(s', id)
    {
      assert Truthful(s, id);
      if InHand(s, id) {
        var p :| 0 <= p < |s.publishers| && !s.publishers[p].Selected? && id in Owned(s.publishers[p]);
        assert s'.publishers[p] == s.publishers[p];
      }
    }
  }

  lemma SoundSelect(s: State, p: nat, limit: nat, ids: seq<nat>)
    requires Sound(s) && Enabled(s, Select(p, limit, ids))
    ensures Sound(Apply(s, Select(p, limit, ids)))
  {
    var s' := Apply(s, Select(p, limit, ids));
    forall q | 0 <= q < |s'.publishers|
      ensures PublisherSound(s', s'.publishers[q])
    {
      assert PublisherSound(s, s.publishers[q]);
      if q == p {
        forall id | id in ids
          ensures Available(s, id) && Truthful(s, id)
        {
        }
      }
    }
    forall q, id | 0 <= q < |s.publishers| && q != p && id in Owned(s.publishers[q])
      ensures id !in ids
    {
      assert PublisherSound(s, s.publishers[q]);
      if id in ids {
        assert Available(s, id);
        assert s.publishers[q].Selected?;
        assert Locked(s, id);
      }
    }
    InHandKept(s, s', p);
    forall id | 0 <= id < |s'.events|
      ensures Truthful(s', id)
    {
      assert Truthful(s, id);
    }
  }

  /** A step that moves one publisher, and takes no event out of its hands, takes none out of any. */
  lemma InHandKept(s: State, s': State, p: nat)
    requires p < |s.publishers| && |s'.publishers| == |s.publishers|
    requires forall q :: 0 <= q < |s.publishers| && q != p ==> s'.publishers[q] == s.publishers[q]
    requires !s.publishers[p].Selected? ==>
               forall id :: id in Owned(s.publishers[p]) ==>
                 !s'.publishers[p].Selected? && id in Owned(s'.publishers[p])
    ensures forall id :: InHand(s, id) ==> InHand(s', id)
  {
    forall id | InHand(s, id)
      ensures InHand(s', id)
    {
      var q :| 0 <= q < |s.publishers| && !s.publishers[q].Selected? && id in Owned(s.publishers[q]);
      assert !s'.publishers[q].Selected? && id in Owned(s'.publishers[q]);
    }
  }

  lemma BatchAppended(batches: seq<seq<nat>>, ids: seq<nat>)
    ensures forall id: nat :: InBatch(batches + [ids], id) <==> InBatch(batches, id) || id in ids
  {
    forall id: nat
      ensures InBatch(batches + [ids], id) <==> InBatch(batches, id) || id in ids
    {
      if InBatch(batches, id) {
        var b :| 0 <= b < |batches| && id in batches[b];
        assert id in (batches + [ids])[b];
      }
      if id in ids {
        assert id in (batches + [ids])[|batches|];
      }
    }
  }

  lemma CommitPublishers(s: State, p: nat, q: nat)
    requires Sound(s) && Enabled(s, CommitClaim(p)) && q < |s.publishers|
    ensures var s' := Apply(s, CommitClaim(p));
            PublisherSound(s', s'.publishers[q]) && Owned(s'.publishers[q]) == Owned(s.publishers[q])
  {
    assert PublisherSound(s, s.publishers[p]) && PublisherSound(s, s.publishers[q]);
    var ids := s.publishers[p].ids;
    assert ids[0..] == ids;
    if q != p {
      forall id | id in Owned(s.publishers[q])
        ensures id !in ids
      {
        assert id in Owned(s.publishers[p]) <==> id in ids;
      }
    }
  }

  lemma CommitRows(s: State, p: nat, id: nat)
    requires Sound(s) && Enabled(s, CommitClaim(p)) && id < |s.events|
    ensures Truthful(Apply(s, CommitClaim(p)), id)
    ensures id in s.publishers[p].ids ==> !InBatch(s.batches, id)
  {
    var s' := Apply(s, CommitClaim(p));
    var ids := s.publishers[p].ids;
    assert PublisherSound(s, s.publishers[p]) && Truthful(s, id);
    assert ids[0..] == ids;
    BatchAppended(s.batches, ids);
    InHandKept(s, s', p);
    if id in ids {
      assert id in Owned(s.publishers[p]);
      assert id in Owned(s'.publishers[p]);
    }
  }

  lemma SoundCommit(s: State, p: nat)
    requires Sound(s) && Enabled(s, CommitClaim(p))
    ensures Sound(Apply(s, CommitClaim(p)))
  {
    var s' := Apply(s, CommitClaim(p));
    var ids := s.publishers[p].ids;
    assert PublisherSound(s, s.publishers[p]);
    forall q | 0 <= q < |s'.publishers|
      ensures PublisherSound(s', s'.publishers[q]) && Owned(s'.publishers[q]) == Owned(s.publishers[q])
    {
      CommitPublishers(s, p, q);
    }
    forall id | 0 <= id < |s'.events|
      ensures Truthful(s', id) && (id in ids ==> !InBatch(s.batches, id))
    {
      CommitRows(s, p, id);
    }
    BatchAppended(s.batches, ids);
    forall b, id | 0 <= b < |s.batches| && id in s.batches[b]
      ensures id !in ids
    {
      assert InBatch(s.batches, id);
    }
  }

  lemma HandedAppended(log: seq<Handover>, h: Handover)
    ensures forall id: nat :: Handed(log + [h], id) <==> Handed(log, id) || id == h.id
    ensures forall x :: x in log + [h] <==> x in log || x == h
  {
    var log' := log + [h];
    assert log'[|log|] == h;
    assert forall i :: 0 <= i < |log| ==> log'[i] == log[i];
    forall id: nat | Handed(log, id)
      ensures Handed(log', id)
    {
      var i :| 0 <= i < |log| && log[i].id == id;
      assert log'[i].id == id;
    }
  }

  /** The event about to be handed over has never been handed over before and is in nobody else's hands. */
  lemma NextIsFresh(s: State, p: nat)
    requires Sound(s) && p < |s.publishers|
    requires s.publishers[p].Holding? && s.publishers[p].next < |s.publishers[p].ids|
    ensures var id := s.publishers[p].ids[s.publishers[p].next];
            && id < |s.events| && s.events[id].status == Claimed && !Handed(s.log, id) && InBatch(s.batches, id)
            && forall q :: 0 <= q < |s.publishers| && q != p ==> id !in Owned(s.publishers[q])
  {
    var Holding(ids, next) := s.publishers[p];
    assert PublisherSound(s, s.publishers[p]);
    assert ids[next..][0] == ids[next];
    assert ids[next] in Owned(s.publishers[p]);
    assert Truthful(s, ids[next]);
  }

  lemma HandOverPublishers(s: State, p: nat, accepted: bool, q: nat)
    requires Sound(s) && Enabled(s, HandOver(p, accepted)) && q < |s.publishers|
    ensures var s' := Apply(s, HandOver(p, accepted));
            PublisherSound(s', s'.publishers[q]) && Owned(s'.publishers[q]) == Owned(s.publishers[q])
  {
    NextIsFresh(s, p);
    HandedAppended(s.log, Handover(s.publishers[p].ids[s.publishers[p].next], accepted));
    assert PublisherSound(s, s.publishers[q]);
  }

  lemma HandOverRows(s: State, p: nat, accepted: bool, id: nat)
    requires Sound(s) && Enabled(s, HandOver(p, accepted)) && id < |s.events|
    ensures Truthful(Apply(s, HandOver(p, accepted)), id)
  {
    NextIsFresh(s, p);
    HandedAppended(s.log, Handover(s.publishers[p].ids[s.publishers[p].next], accepted));
    InHandKept(s, Apply(s, HandOver(p, accepted)), p);
    assert Truthful(s, id);
  }

  lemma SoundHandOver(s: State, p: nat, accepted: bool)
    requires Sound(s) && Enabled(s, HandOver(p, accepted))
    ensures Sound(Apply(s, HandOver(p, accepted)))
  {
    var s' := Apply(s, HandOver(p, accepted));
    var id0 := s.publishers[p].ids[s.publishers[p].next];
    forall q | 0 <= q < |s'.publishers|
      ensures PublisherSound(s', s'.publishers[q]) && Owned(s'.publishers[q]) == Owned(s.publishers[q])
    {
      HandOverPublishers(s, p, accepted, q);
    }
    NextIsFresh(s, p);
    HandedAppended(s.log, Handover(id0, accepted));
    forall id | 0 <= id < |s'.events|
      ensures Truthful(s', id)
    {
      HandOverRows(s, p, accepted, id);
    }
    forall i | 0 <= i < |s.log|
      ensures s.log[i].id != id0
    {
      assert !Handed(s.log, id0);
    }
  }

  lemma OwnedAdvances(ids: seq<nat>, next: nat)
    requires Distinct(ids) && next < |ids|
    ensures forall id :: id in ids[next + 1..] <==> id in ids[next..] && id != ids[next]
    ensures ids[next] in ids[next..]
  {
    var rest := ids[next + 1..];
    assert ids[next..] == [ids[next]] + rest;
    forall id | id in rest
      ensures id != ids[next]
    {
      var i :| 0 <= i < |rest| && rest[i] == id;
      assert ids[next + 1 + i] == id;
    }
  }

  /** Publisher `p` moves past the event it has written; everything else stays in the same hands. */
  lemma Advanced(s: State, s': State, p: nat)
    requires Sound(s) && Enabled(s, Mark(p))
    requires s'.publishers == s.publishers[p := Holding(s.publishers[p].ids, s.publishers[p].next + 1)]
    ensures var id0 := s.publishers[p].ids[s.publishers[p].next];
            && (forall q, id :: 0 <= q < |s.publishers| ==>
                  (id in Owned(s'.publishers[q]) <==> id in Owned(s.publishers[q]) && id != id0))
            && (forall id :: InHand(s, id) && id != id0 ==> InHand(s', id))
            && id0 in Owned(s.publishers[p])
    ensures Exclusive(s')
  {
    var Written(ids, next, accepted) := s.publishers[p];
    var id0 := ids[next];
    assert PublisherSound(s, s.publishers[p]);
    OwnedAdvances(ids, next);
    forall q, id | 0 <= q < |s.publishers|
      ensures id in Owned(s'.publishers[q]) <==> id in Owned(s.publishers[q]) && id != id0
    {
      if q != p {
        assert id0 in Owned(s.publishers[p]);
      }
    }
    forall id | InHand(s, id) && id != id0
      ensures InHand(s', id)
    {
      var q :| 0 <= q < |s.publishers| && !s.publishers[q].Selected? && id in Owned(s.publishers[q]);
      assert id in Owned(s'.publishers[q]);
    }
  }

  lemma MarkPublishers(s: State, p: nat, q: nat, e: Step)
    requires Sound(s) && Enabled(s, e) && (e == Mark(p) || e == FailMark(p)) && q < |s.publishers|
    ensures PublisherSound(Apply(s, e), Apply(s, e).publishers[q])
  {
    var s' := Apply(s, e);
    var pub := s.publishers[q];
    Advanced(s, s', p);
    assert PublisherSound(s, pub) && s'.log == s.log && |s'.events| == |s.events|;
    forall id | id in Owned(s'.publishers[q])
      ensures id < |s'.events| && id !in s'.orphans
      ensures s'.events[id].status == (if pub.Selected? then Pending else Claimed)
      ensures Handed(s'.log, id) ==> q != p && pub.Written? && id == pub.ids[pub.next]
    {
      assert id in Owned(pub) && id != s.publishers[p].ids[s.publishers[p].next];
    }
  }

  lemma MarkRows(s: State, p: nat, id: nat, e: Step)
    requires Sound(s) && Enabled(s, e) && (e == Mark(p) || e == FailMark(p)) && id < |s.events|
    ensures Truthful(Apply(s, e), id)
  {
    var s' := Apply(s, e);
    var pub := s.publishers[p];
    Advanced(s, s', p);
    assert Truthful(s, id) && s'.log == s.log && s'.batches == s.batches;
    if id == pub.ids[pub.next] {
      assert PublisherSound(s, pub) && id in Owned(pub);
      assert s'.events[id].status == if e.Mark? then Outcome(pub.accepted) else Claimed;
    } else {
      assert s'.events[id] == s.events[id];
    }
  }

  lemma SoundMark(s: State, p: nat, e: Step)
    requires Sound(s) && Enabled(s, e) && (e == Mark(p) || e == FailMark(p))
    ensures Sound(Apply(s, e))
  {
    var s' := Apply(s, e);
    Advanced(s, s', p);
    forall q | 0 <= q < |s'.publishers|
      ensures PublisherSound(s', s'.publishers[q])
    {
      MarkPublishers(s, p, q, e);
    }
    forall id | 0 <= id < |s'.events|
      ensures Truthful(s', id)
    {
      MarkRows(s, p, id, e);
    }
    assert PublisherSound(s, s.publishers[p]);
  }

  lemma SoundRest(s: State, p: nat)
    requires Sound(s) && Enabled(s, Rest(p))
    ensures Sound(Apply(s, Rest(p)))
  {
    var s' := Apply(s, Rest(p));
    assert Owned(s.publishers[p]) == [];
    forall q | 0 <= q < |s'.publishers|
      ensures PublisherSound(s', s'.publishers[q])
    {
      assert PublisherSound(s, s.publishers[q]);
    }
    InHandKept(s, s', p);
    forall id | 0 <= id < |s'.events|
      ensures Truthful(s', id)
    {
      assert Truthful(s, id);
    }
  }

  lemma SoundAbandon(s: State, p: nat)
    requires Sound(s) && Enabled(s, Abandon(p))
    ensures Sound(Apply(s, Abandon(p)))
  {
    var s' := Apply(s, Abandon(p));
    var mine := Owned(s.publishers[p]);
    assert PublisherSound(s, s.publishers[p]);
    forall q | 0 <= q < |s'.publishers|
      ensures PublisherSound(s', s'.publishers[q])
    {
      assert PublisherSound(s, s.publishers[q]);
      if q != p {
        assert forall id :: id in Owned(s.publishers[q]) ==> id !in mine;
      }
    }
    forall id | 0 <= id < |s'.events|
      ensures Truthful(s', id)
    {
      assert Truthful(s, id);
      if InHand(s, id) && (id !in mine || s.publishers[p].Selected?) {
        var q :| 0 <= q < |s.publishers| && !s.publishers[q].Selected? && id in Owned(s.publishers[q]);
        assert id in Owned(s'.publishers[q]);
      }
    }
  }

  lemma SoundStep(s: State, e: Step)
    requires Sound(s) && Enabled(s, e)
    ensures Sound(Apply(s, e))
  {
    match e
    case Insert(_, _, _) => SoundInsert(s, e);
    case Start => SoundStart(s);
    case Select(p, limit, ids) => SoundSelect(s, p, limit, ids);
    case CommitClaim(p) => SoundCommit(s, p);
    case HandOver(p, accepted) => SoundHandOver(s, p, accepted);
    case Mark(p) => SoundMark(s, p, e);
    case FailMark(p) => SoundMark(s, p, e);
    case Rest(p) => SoundRest(s, p);
    case Abandon(p) => SoundAbandon(s, p);
  }

  lemma SoundInitially()
    ensures Sound(INITIAL)
  {
  }

  lemma SoundNext(s: State, e: Step, s': State)
    requires Sound(s) && Enabled(s, e) && s' == Apply(s, e)
    ensures Sound(s')
  {
    SoundStep(s, e);
  }

  lemma {:induction false} SoundRun(states: seq<State>, steps: seq<Step>, n: nat)
    requires IsRun(states, steps) && n <= |steps|
    ensures Sound(states[n])
  {
    if n == 0 {
      SoundInitially();
    } else {
      SoundRun(states, steps, n - 1);
      SoundNext(states[n - 1], steps[n - 1], states[n]);
    }
  }
}
