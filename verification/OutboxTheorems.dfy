/**
 What the outbox promises over whole runs.
 */
module OutboxTheorems {
  import opened Outbox
  import opened OutboxProofs

  /**
   Claim exclusivity: in every run, each event belongs to at most one committed batch, once, and is handed to the
   writer at most once; whoever holds a claimed event holds it alone.
   */
  lemma ClaimsAreExclusive(states: seq<State>, steps: seq<Step>, n: nat)
    requires IsRun(states, steps) && n <= |steps|
    ensures forall b, c, i, j ::
              (&& 0 <= b < |states[n].batches| && 0 <= c < |states[n].batches|
               && 0 <= i < |states[n].batches[b]| && 0 <= j < |states[n].batches[c]|
               && states[n].batches[b][i] == states[n].batches[c][j]) ==>
                b == c && i == j
    ensures forall i, j :: 0 <= i < j < |states[n].log| ==> states[n].log[i].id != states[n].log[j].id
    ensures forall p, q, id :: 0 <= p < q < |states[n].publishers| && id in Owned(states[n].publishers[p]) ==>
              id !in Owned(states[n].publishers[q])
  {
    SoundRun(states, steps, n);
    var batches := states[n].batches;
    forall b, c, i, j | 0 <= b < |batches| && 0 <= c < |batches| && 0 <= i < |batches[b]| && 0 <= j < |batches[c]|
                        && batches[b][i] == batches[c][j]
      ensures b == c && i == j
    {
      assert batches[b][i] in batches[b] && batches[c][j] in batches[c];
      assert Distinct(batches[b]);
    }
  }

  /**
   Statuses tell the truth and no row is lost: PENDING means never handed over, PUBLISHED that the writer accepted
   the message and never refused it, FAILED the reverse, and a CLAIMED row is with a live publisher or was orphaned.
   */
  lemma StatusesTellTheTruth(states: seq<State>, steps: seq<Step>, n: nat, id: nat)
    requires IsRun(states, steps) && n <= |steps| && id < |states[n].events|
    ensures var s := states[n];
            match s.events[id].status
            case Pending => !Handed(s.log, id)
            case Published => Handover(id, true) in s.log && Handover(id, false) !in s.log
            case Failed => Handover(id, false) in s.log && Handover(id, true) !in s.log
            case Claimed => InHand(s, id) != (id in s.orphans)
  {
    var s := states[n];
    SoundRun(states, steps, n);
    assert Truthful(s, id);
    OneOutcome(s.log, id);
    if InHand(s, id) {
      var p :| 0 <= p < |s.publishers| && !s.publishers[p].Selected? && id in Owned(s.publishers[p]);
      assert PublisherSound(s, s.publishers[p]);
    }
  }

  lemma OneOutcome(log: seq<Handover>, id: nat)
    requires forall i, j :: 0 <= i < j < |log| ==> log[i].id != log[j].id
    ensures !(Handover(id, true) in log && Handover(id, false) in log)
  {
  }

  /** The step by which an event can be orphaned: its publisher stops, or the mark after its hand-over fails. */
  ghost predicate LetsGo(s: State, e: Step, id: nat) {
    && (e.Abandon? || e.FailMark?)
    && e.p < |s.publishers| && !s.publishers[e.p].Selected? && id in Owned(s.publishers[e.p])
  }

  /** No event is orphaned for any other reason. */
  lemma {:induction false} OrphansAreExplained(states: seq<State>, steps: seq<Step>, n: nat, id: nat)
    requires IsRun(states, steps) && n <= |steps| && id in states[n].orphans
    ensures exists i :: 0 <= i < n && LetsGo(states[i], steps[i], id)
  {
    assert n > 0;
    var s, e := states[n - 1], steps[n - 1];
    assert states[n] == Apply(s, e);
    if id in s.orphans {
      OrphansAreExplained(states, steps, n - 1, id);
    } else {
      if e.FailMark? {
        SoundRun(states, steps, n - 1);
        Advanced(s, Apply(s, e), e.p);
      }
      assert LetsGo(states[n - 1], steps[n - 1], id);
    }
  }

  ghost predicate Forward(from: Status, to: Status) {
    from == to || from == Pending || (from == Claimed && to != Pending)
  }

  lemma StatusStep(s: State, e: Step, id: nat)
    requires Sound(s) && Enabled(s, e) && id < |s.events|
    ensures id < |Apply(s, e).events| && Forward(s.events[id].status, Apply(s, e).events[id].status)
    ensures Apply(s, e).events[id].(status := Pending) == s.events[id].(status := Pending)
  {
    if e.CommitClaim? || e.Mark? {
      var pub := s.publishers[e.p];
      assert PublisherSound(s, pub);
      if e.Mark? {
        OwnedAdvances(pub.ids, pub.next);
      }
    }
  }

  /** Statuses only move from PENDING to CLAIMED to PUBLISHED or FAILED, and nothing else of an event changes. */
  lemma {:induction false} StatusesMoveForward(states: seq<State>, steps: seq<Step>, i: nat, j: nat, id: nat)
    requires IsRun(states, steps) && i <= j <= |steps| && id < |states[i].events|
    ensures id < |states[j].events|
    ensures Forward(states[i].events[id].status, states[j].events[id].status)
    ensures states[i].events[id].(status := Pending) == states[j].events[id].(status := Pending)
    decreases j - i
  {
    if i < j {
      StatusesMoveForward(states, steps, i, j - 1, id);
      SoundRun(states, steps, j - 1);
      StatusStep(states[j - 1], steps[j - 1], id);
      assert states[j] == Apply(states[j - 1], steps[j - 1]);
    }
  }
}
