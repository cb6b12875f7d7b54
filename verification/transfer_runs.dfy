/**
 Sequences of actions applied one at a time, in arrival order, starting from
 the initial record: the states a transfer record can reach and what they
 keep.
 */
module TransferRuns {
  import opened Wrappers
  import opened Transfer

  /** The record after applying `actions` to `s`, first action first. */
  function Run<Sig>(s: TransferState<Sig>, actions: seq<Action<Sig>>): TransferState<Sig>
    decreases |actions|
  {
    if |actions| == 0 then s else Run(Apply(s, actions[0]), actions[1..])
  }

  /** Records some sequence of actions produces from the initial record. */
  ghost predicate Reachable<Sig(!new)>(s: TransferState<Sig>) {
    exists actions :: Run(InitialState(), actions) == s
  }

  /** None of the actions starts a new transfer. */
  predicate NoStart<Sig>(actions: seq<Action<Sig>>) {
    forall i :: 0 <= i < |actions| ==> !actions[i].IsStart()
  }

  /** The number of signature events among the actions. */
  function SignatureEventCount<Sig>(actions: seq<Action<Sig>>): (n: nat)
    ensures n <= |actions|
    decreases |actions|
  {
    if |actions| == 0 then 0
    else (if actions[0].AddSignature? then 1 else 0) + SignatureEventCount(actions[1..])
  }

  /** The signatures the signature events carry, in order; events without one contribute nothing. */
  function SignaturePayloads<Sig>(actions: seq<Action<Sig>>): (sigs: seq<Sig>)
    ensures |sigs| <= SignatureEventCount(actions)
    decreases |actions|
  {
    if |actions| == 0 then []
    else
      (if actions[0].AddSignature? && actions[0].signature.Some? then [actions[0].signature.value] else [])
      + SignaturePayloads(actions[1..])
  }

  lemma {:induction false} RunConcat<Sig>(s: TransferState<Sig>, xs: seq<Action<Sig>>, ys: seq<Action<Sig>>)
    ensures Run(s, xs + ys) == Run(Run(s, xs), ys)
    decreases |xs|
  {
    if |xs| == 0 {
      assert xs + ys == ys;
    } else {
      assert (xs + ys)[1..] == xs[1..] + ys;
      RunConcat(Apply(s, xs[0]), xs[1..], ys);
    }
  }

  lemma {:induction false} RunPreservesConsistent<Sig>(s: TransferState<Sig>, actions: seq<Action<Sig>>)
    requires Consistent(s)
    ensures Consistent(Run(s, actions))
    decreases |actions|
  {
    if |actions| > 0 {
      RunPreservesConsistent(Apply(s, actions[0]), actions[1..]);
    }
  }

  /**
   Every reachable record keeps the invariant: the counter is never behind the
   stored signatures, and a started transfer has a step and a non-idle status.
   */
  lemma ReachableIsConsistent<Sig(!new)>(s: TransferState<Sig>)
    requires Reachable(s)
    ensures Consistent(s)
  {
    var actions :| Run(InitialState(), actions) == s;
    InitialStateIsIdle<Sig>();
    RunPreservesConsistent(InitialState(), actions);
  }

  /**
   Applying any action to a reachable record gives a reachable record. This is
   a structural fact about `Run` and `Reachable`, not about the handlers.
   */
  lemma ReachableIsClosed<Sig(!new)>(s: TransferState<Sig>, a: Action<Sig>)
    requires Reachable(s)
    ensures Reachable(Apply(s, a))
  {
    var actions :| Run(InitialState(), actions) == s;
    RunConcat(InitialState(), actions, [a]);
    assert Run(s, [a]) == Run(Apply(s, a), []);
    assert Run(InitialState(), actions + [a]) == Apply(s, a);
  }

  /** One action other than a start adds its own signature event and carried signature, if any. */
  lemma ApplyTracksSignatures<Sig>(s: TransferState<Sig>, a: Action<Sig>)
    requires !a.IsStart()
    ensures Apply(s, a).signatureCount == s.signatureCount + (if a.AddSignature? then 1 else 0)
    ensures Apply(s, a).signatures
         == s.signatures + (if a.AddSignature? && a.signature.Some? then [a.signature.value] else [])
  {
    if a.AddSignature? {
      AddSignatureCountsEveryEvent(s, a.signature);
    } else {
      assert SignatureCountField !in Writes(a) && SignaturesField !in Writes(a);
      assert Agree(s, Apply(s, a), SignatureCountField) && Agree(s, Apply(s, a), SignaturesField);
      assert s.signatures + [] == s.signatures;
    }
  }

  /**
   Between two starts the counter grows by exactly the number of signature
   events, and the stored list grows by exactly the signatures they carry.
   */
  lemma {:induction false} RunTracksSignatures<Sig>(s: TransferState<Sig>, actions: seq<Action<Sig>>)
    requires NoStart(actions)
    ensures Run(s, actions).signatureCount == s.signatureCount + SignatureEventCount(actions)
    ensures Run(s, actions).signatures == s.signatures + SignaturePayloads(actions)
    decreases |actions|
  {
    if |actions| == 0 {
      assert s.signatures + [] == s.signatures;
    } else {
      var a := actions[0];
      var t := Apply(s, a);
      assert NoStart(actions[1..]) by {
        forall i | 0 <= i < |actions[1..]|
          ensures !actions[1..][i].IsStart()
        {
          assert actions[1..][i] == actions[i + 1];
        }
      }
      var carried := if a.AddSignature? && a.signature.Some? then [a.signature.value] else [];
      assert Run(s, actions) == Run(t, actions[1..]);
      assert SignaturePayloads(actions) == carried + SignaturePayloads(actions[1..]);
      RunTracksSignatures(t, actions[1..]);
      ApplyTracksSignatures(s, a);
      assert s.signatures + SignaturePayloads(actions) == (s.signatures + carried) + SignaturePayloads(actions[1..]);
    }
  }

  /** Without a start, the stored signatures only grow at the end and the counter never goes down. */
  lemma RunIsAppendOnly<Sig>(s: TransferState<Sig>, actions: seq<Action<Sig>>)
    requires NoStart(actions)
    ensures s.signatures <= Run(s, actions).signatures
    ensures s.signatureCount <= Run(s, actions).signatureCount
  {
    RunTracksSignatures(s, actions);
  }

  lemma {:induction false} AllSignatureEventsCounted<Sig>(actions: seq<Action<Sig>>)
    requires forall i :: 0 <= i < |actions| ==> actions[i].AddSignature?
    ensures SignatureEventCount(actions) == |actions|
    decreases |actions|
  {
    if |actions| > 0 {
      assert forall i :: 0 <= i < |actions[1..]| ==> actions[1..][i] == actions[i + 1];
      AllSignatureEventsCounted(actions[1..]);
    }
  }

  /**
   After a start followed by k signature events, the counter is k and the list
   holds exactly the signatures those events carried.
   */
  lemma {:induction false} FreshTransferCountsSignatureEvents<Sig>(s: TransferState<Sig>, start: Action<Sig>, events: seq<Action<Sig>>)
    requires start.IsStart()
    requires forall i :: 0 <= i < |events| ==> events[i].AddSignature?
    ensures Run(Apply(s, start), events).signatureCount == |events|
    ensures Run(Apply(s, start), events).signatures == SignaturePayloads(events)
  {
    forall i | 0 <= i < |events|
      ensures !events[i].IsStart()
    {
      assert events[i].AddSignature?;
    }
    RunTracksSignatures(Apply(s, start), events);
    AllSignatureEventsCounted(events);
  }

  /** A run that begins with a start ends in the same record whatever came before. */
  lemma {:induction false} RestartForgetsHistory<Sig>(s1: TransferState<Sig>, s2: TransferState<Sig>, start: Action<Sig>, rest: seq<Action<Sig>>)
    requires start.IsStart()
    ensures Run(s1, [start] + rest) == Run(s2, [start] + rest)
  {
    assert ([start] + rest)[1..] == rest;
    StartResetsWholesale(s1, s2, start);
  }

  predicate IsTerminal(status: TransferStatus) {
    status == Success || status == Failure
  }

  /**
   Once a transfer has succeeded or failed it stays in a terminal status until
   the next start, whatever setters or signature events arrive in between.
   */
  lemma {:induction false} TerminalStatusPersists<Sig>(s: TransferState<Sig>, actions: seq<Action<Sig>>)
    requires IsTerminal(s.status)
    requires NoStart(actions)
    ensures IsTerminal(Run(s, actions).status)
    decreases |actions|
  {
    if |actions| > 0 {
      StatusMovesOnlyOnLifecycleEvents(s, actions[0]);
      assert NoStart(actions[1..]) by {
        assert forall i :: 0 <= i < |actions[1..]| ==> actions[1..][i] == actions[i + 1];
      }
      TerminalStatusPersists(Apply(s, actions[0]), actions[1..]);
    }
  }

  /** Running five actions applies them one after another, first action first. */
  lemma {:induction false} RunFive<Sig>(s: TransferState<Sig>, a1: Action<Sig>, a2: Action<Sig>, a3: Action<Sig>, a4: Action<Sig>, a5: Action<Sig>)
    ensures Run(s, [a1, a2, a3, a4, a5]) == Apply(Apply(Apply(Apply(Apply(s, a1), a2), a3), a4), a5)
  {
    var s1 := Apply(s, a1);
    var s2 := Apply(s1, a2);
    var s3 := Apply(s2, a3);
    var s4 := Apply(s3, a4);
    assert [a1, a2, a3, a4, a5][1..] == [a2, a3, a4, a5];
    assert [a2, a3, a4, a5][1..] == [a3, a4, a5];
    assert [a3, a4, a5][1..] == [a4, a5];
    assert [a4, a5][1..] == [a5];
    assert Run(s4, [a5]) == Apply(s4, a5);
    assert Run(s3, [a4, a5]) == Run(s4, [a5]);
    assert Run(s2, [a3, a4, a5]) == Run(s3, [a4, a5]);
    assert Run(s1, [a2, a3, a4, a5]) == Run(s2, [a3, a4, a5]);
  }

  /**
   A withdrawal of "100" with three required signatures and three signature
   events: the counter and the list both reach three.
   */
  lemma ThreeSignedEvents<Sig>(a: Sig, b: Sig, c: Sig)
    ensures Run(InitialState(), [NewWithdraw("100"), SetRequiredSignatureCount(3),
        AddSignature(Some(a)), AddSignature(Some(b)), AddSignature(Some(c))])
      == Started(Withdrawal, 0, "100").(requiredSignatureCount := 3, signatureCount := 3, signatures := [a, b, c])
  {
    RunFive(InitialState(), NewWithdraw("100"), SetRequiredSignatureCount(3),
      AddSignature(Some(a)), AddSignature(Some(b)), AddSignature(Some(c)));
  }

  /** The same, but the second event carries no signature: three are counted, two are stored. */
  lemma OneEventWithoutSignature<Sig>(a: Sig, c: Sig)
    ensures Run(InitialState(), [NewWithdraw("100"), SetRequiredSignatureCount(3),
        AddSignature(Some(a)), AddSignature(), AddSignature(Some(c))])
      == Started(Withdrawal, 0, "100").(requiredSignatureCount := 3, signatureCount := 3, signatures := [a, c])
  {
    RunFive(InitialState(), NewWithdraw("100"), SetRequiredSignatureCount(3),
      AddSignature(Some(a)), AddSignature(), AddSignature(Some(c)));
  }
}
