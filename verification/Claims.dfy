/**
 From a response to a claim: every reference of a delivered response is entered in the receiving end's
 `attachments` table, stays there with what it says until somebody claims its stream or it is swept,
 and is handed to exactly one claimant.
 */
module Claims {
  import opened Base
  import opened Attach
  import opened Wire
  import opened Session

  // ---------------------------------------------------------------- what an act leaves of one entry

  /** The end has, or once had, a receiver for the stream. */
  predicate Known(end: End, s: StreamId)
  {
    s in end.ins && !end.ins[s].Absent?
  }

  /** An attachment nobody has claimed has not been read either. */
  predicate Untouched(end: End, s: StreamId)
  {
    s in end.attachments ==>
      s in end.ins && end.ins[s].Rx? && end.ins[s].ready && end.ins[s].finished.Still? && end.ins[s].got == []
  }

  /** The stream's entry is as it was; its receiver is not forgotten, and one that was dropped stays so. */
  ghost predicate Keeps(end: End, end': End, s: StreamId)
  {
    Known(end, s) ==>
      && Known(end', s) && (end.ins[s].Dropped? ==> end'.ins[s].Dropped?)
      && (s in end'.attachments <==> s in end.attachments)
      && (s in end.attachments ==> end'.attachments[s] == end.attachments[s])
  }

  lemma {:induction false} OpenKeeps(end: End, env: Env, ds: seq<Detached>)
    ensures OpenAll(end, env, ds).ins == end.ins && OpenAll(end, env, ds).attachments == end.attachments
    decreases |ds|
  {
    if ds != [] { OpenKeeps(end, env, ds[..|ds| - 1]); }
  }

  lemma {:induction false} RegisterKeeps(end: End, refs: seq<AttachmentRef>, s: StreamId)
    requires Untouched(end, s) && (Names(refs, s) ==> !Known(end, s))
    ensures Untouched(RegisterAll(end, refs), s) && Keeps(end, RegisterAll(end, refs), s)
    decreases |refs|
  {
    if refs != [] {
      var front := refs[..|refs| - 1];
      if Names(front, s) {
        var i :| 0 <= i < |front| && front[i].stream == s;
        assert refs[i].stream == s;
      }
      assert refs[|refs| - 1].stream == s ==> Names(refs, s);
      RegisterKeeps(end, front, s);
    }
  }

  lemma HandleKeeps(end: End, frame: Frame, s: StreamId)
    requires Untouched(end, s) && (frame.Res? && Names(Refs(frame.result), s) ==> !Known(end, s))
    ensures Untouched(Handle(end, frame).0, s) && Keeps(end, Handle(end, frame).0, s)
  {
    if frame.Res? { RegisterKeeps(end, Refs(frame.result), s); }
  }

  lemma RespondedKeeps(end: End, env: Env, answers: Option<StreamId>, streams: bool, original: Value, ids: seq<StreamId>, s: StreamId)
    requires Untouched(end, s)
    ensures var after := Responded(end, env, answers, streams, original, ids); Untouched(after, s) && Keeps(end, after, s)
  {
    OpenKeeps(end, env, Detach(original, CtxOf(env, ids), 0).1);
  }

  /** A response that names a stream is the first this end hears of it. */
  lemma FirstHeard(w: Wire, e: Side, env: Env, s: StreamId)
    requires Sound(w, env) && From(w, Peer(e)) != []
    requires var f := From(w, Peer(e))[0]; f.Res? && Names(Refs(f.result), s)
    ensures !Known(At(w, e), s) && s !in At(w, e).incoming
  {
    assert SoundAt(w, s, env);
    AnnounceKind(w, e, env, s);
    assert RowOf(At(w, e), s).entry.None?;
  }

  lemma DeliverKeeps(w: Wire, e: Side, env: Env, s: StreamId)
    requires Sound(w, env) && From(w, Peer(e)) != [] && Untouched(At(w, e), s)
    ensures Untouched(At(Delivered(w, e), e), s) && Keeps(At(w, e), At(Delivered(w, e), e), s)
  {
    var f := From(w, Peer(e))[0];
    if f.Res? && Names(Refs(f.result), s) { FirstHeard(w, e, env, s); }
    HandleKeeps(At(w, e), f, s);
  }

  lemma CallKeeps(w: Wire, e: Side, env: Env, s: StreamId)
    requires Sound(w, env) && At(w, e).next < 0x1_0000_0000 && Untouched(At(w, e), s)
    ensures Untouched(Calling(At(w, e)), s) && Keeps(At(w, e), Calling(At(w, e)), s)
  {
    var t: StreamId := At(w, e).next;
    assert SoundAt(w, t, env) && Clear(w, t);
    assert RowOf(At(w, e), t) == Blank;
  }

  /** The other end's tables are not touched. */
  lemma OtherEnd(w: Wire, a: Act, env: Env)
    requires Enabled(w, a, env)
    ensures At(Next(w, a, env), Peer(a.side)) == At(w, Peer(a.side))
  {
    if SenderAct(a) { SenderNext(w, a, env); }
  }

  predicate Releases(a: Act, e: Side, s: StreamId)
  {
    a == Claim(e, s) || a == Drop(e, s)
  }

  lemma SenderKeepsIns(w: Wire, a: Act, env: Env)
    requires SenderAct(a) && Enabled(w, a, env)
    ensures var end, end' := At(w, a.side), At(Next(w, a, env), a.side); end'.ins == end.ins && end'.attachments == end.attachments
  {
    SenderNext(w, a, env);
  }

  lemma ConsumerKeepsOthers(end: End, t: StreamId, poll: bool, s: StreamId)
    requires Reads(end, t) && (poll ==> end.ins[t].chan != [] && t !in end.attachments) && Untouched(end, s)
    ensures var end' := ConsumerMove(end, t, poll).0; Untouched(end', s) && (poll || s != t ==> Keeps(end, end', s))
  {
  }

  /** No act but a claim or a drop of the stream itself takes its entry away or changes it. */
  lemma ActKeeps(w: Wire, a: Act, env: Env, e: Side, s: StreamId)
    requires Sound(w, env) && Enabled(w, a, env) && Untouched(At(w, e), s)
    ensures Untouched(At(Next(w, a, env), e), s)
    ensures !Releases(a, e, s) ==> Keeps(At(w, e), At(Next(w, a, env), e), s)
  {
    if a.side != e {
      assert e == Peer(a.side);
      OtherEnd(w, a, env);
    } else {
      match a
      case Call(_) => CallKeeps(w, e, env, s);
      case Respond(_, answers, streams, original, ids) => RespondedKeeps(At(w, e), env, answers, streams, original, ids, s);
      case Deliver(_) => DeliverKeeps(w, e, env, s);
      case Claim(_, t) =>
      case Poll(_, t) => ConsumerKeepsOthers(At(w, e), t, true, s);
      case Drop(_, t) => ConsumerKeepsOthers(At(w, e), t, false, s);
      case _ => SenderKeepsIns(w, a, env);
    }
  }

  // ---------------------------------------------------------------- claims over a run

  /** What the claims made at side `e` before step `k` were handed. */
  ghost function ClaimsOf(ws: seq<Wire>, acts: seq<Act>, e: Side, k: nat): (m: map<StreamId, AttachmentRef>)
    requires k <= |acts| < |ws|
  {
    if k == 0 then map[] else
    var before := ClaimsOf(ws, acts, e, k - 1);
    var end := At(ws[k - 1], e);
    if acts[k - 1].Claim? && acts[k - 1].side == e && acts[k - 1].s in end.attachments
    then before[acts[k - 1].s := end.attachments[acts[k - 1].s]]
    else before
  }

  /** A claimed stream was known, and its entry is gone. */
  ghost predicate ClaimedOnce(ws: seq<Wire>, acts: seq<Act>, e: Side, s: StreamId, k: nat)
    requires k <= |acts| < |ws|
  {
    && Untouched(At(ws[k], e), s)
    && (s in ClaimsOf(ws, acts, e, k) ==> Known(At(ws[k], e), s) && s !in At(ws[k], e).attachments)
  }

  lemma RunStep(ws: seq<Wire>, acts: seq<Act>, env: Env, k: nat)
    requires Run(ws, acts, env) && k < |acts|
    ensures Enabled(ws[k], acts[k], env) && ws[k + 1] == Next(ws[k], acts[k], env) && Sound(ws[k], env)
  {
    RunInv(ws, acts, env, k);
    assert Took(ws, acts, env, k);
  }

  lemma ClaimStep(ws: seq<Wire>, acts: seq<Act>, env: Env, e: Side, s: StreamId, k: nat)
    requires Run(ws, acts, env) && k < |acts| && ClaimedOnce(ws, acts, e, s, k)
    ensures ClaimedOnce(ws, acts, e, s, k + 1)
  {
    RunStep(ws, acts, env, k);
    ActKeeps(ws[k], acts[k], env, e, s);
    if Releases(acts[k], e, s) { ReleasedKnown(ws[k], acts[k], env, e, s); }
  }

  lemma ReleasedKnown(w: Wire, a: Act, env: Env, e: Side, s: StreamId)
    requires Enabled(w, a, env) && Releases(a, e, s) && Untouched(At(w, e), s)
    ensures var end := At(Next(w, a, env), e);
      && s !in end.attachments && Known(At(w, e), s) && Known(end, s)
      && (a.Claim? ==> end.ins == At(w, e).ins) && (a.Drop? ==> end.ins[s].Dropped?)
  {
  }

  lemma {:induction false} RunClaims(ws: seq<Wire>, acts: seq<Act>, env: Env, e: Side, s: StreamId, k: nat)
    requires Run(ws, acts, env) && k <= |acts|
    ensures ClaimedOnce(ws, acts, e, s, k)
  {
    if k > 0 {
      RunClaims(ws, acts, env, e, s, k - 1);
      ClaimStep(ws, acts, env, e, s, k - 1);
    }
  }

  // ---------------------------------------------------------------- registration

  ghost predicate Apart(refs: seq<AttachmentRef>)
  {
    forall i, j :: 0 <= i < j < |refs| ==> refs[i].stream != refs[j].stream
  }

  lemma {:induction false} RegisterSets(end: End, refs: seq<AttachmentRef>, i: nat)
    requires i < |refs| && Apart(refs) && refs[i].stream !in end.incoming
    ensures var end' := RegisterAll(end, refs);
      && refs[i].stream in end'.attachments && end'.attachments[refs[i].stream] == refs[i]
    decreases |refs|
  {
    var n := |refs| - 1;
    if i < n {
      RegisterSets(end, refs[..n], i);
    } else {
      RegisterRow(end, refs[..n], refs[i].stream);
      assert RowOf(RegisterAll(end, refs[..n]), refs[i].stream).entry.None?;
    }
  }

  /** The references in a response that was given are of different streams. */
  lemma GivenApart(w: Wire, e: Side, tree: Value, env: Env)
    requires Recorded(w, env) && Gave(w, e, tree, env)
    ensures Apart(Refs(tree))
  {
    var k :| 0 <= k < |w.replies| && w.replies[k].side == e && tree == TreeOf(w.replies[k], env);
    var r := w.replies[k];
    assert Planned(w, r, env);
    var c := CtxOf(env, r.ids);
    NoRefs(r.original, env.threshold);
    DetachSends(r.original, c, 0);
    RefsListWhatLeft(r.original, c, 0);
    forall i, j | 0 <= i < j < |Refs(tree)| ensures Refs(tree)[i].stream != Refs(tree)[j].stream {
      assert Refs(tree)[i].stream == r.ids[i] && Refs(tree)[j].stream == r.ids[j];
    }
  }

  /** Step `i` delivers to `e` a response that holds `r`. */
  ghost predicate Brings(ws: seq<Wire>, acts: seq<Act>, i: nat, e: Side, r: AttachmentRef)
  {
    i < |acts| < |ws| && acts[i] == Deliver(e) && From(ws[i], Peer(e)) != [] && From(ws[i], Peer(e))[0].Res?
    && r in Refs(From(ws[i], Peer(e))[0].result)
  }

  /** Delivering a response enters every reference in it, as it stands, and none of them was claimed before. */
  lemma DeliveryRegisters(ws: seq<Wire>, acts: seq<Act>, env: Env, i: nat, e: Side, r: AttachmentRef)
    requires Run(ws, acts, env) && Brings(ws, acts, i, e, r)
    ensures r.stream in At(ws[i + 1], e).attachments && At(ws[i + 1], e).attachments[r.stream] == r
    ensures r.stream !in ClaimsOf(ws, acts, e, i + 1)
  {
    var f := From(ws[i], Peer(e))[0];
    var refs := Refs(f.result);
    var x :| 0 <= x < |refs| && refs[x] == r;
    RunInv(ws, acts, env, i);
    RunStep(ws, acts, env, i);
    assert Gave(ws[i], Peer(e), f.result, env);
    GivenApart(ws[i], Peer(e), f.result, env);
    assert Names(refs, r.stream);
    FirstHeard(ws[i], e, env, r.stream);
    RunClaims(ws, acts, env, e, r.stream, i);
    RegisterSets(At(ws[i], e), refs, x);
    DeliveredRes(ws[i], e);
  }

  lemma DeliveredRes(w: Wire, e: Side)
    requires From(w, Peer(e)) != [] && From(w, Peer(e))[0].Res?
    ensures At(Delivered(w, e), e).attachments == RegisterAll(At(w, e), Refs(From(w, Peer(e))[0].result)).attachments
  {
  }

  // ---------------------------------------------------------------- until it is claimed

  /** The reference waits, or one claimant has it, or its stream was hung up on. */
  ghost predicate Accounted(ws: seq<Wire>, acts: seq<Act>, e: Side, r: AttachmentRef, k: nat)
    requires k <= |acts| < |ws|
  {
    var s, end, claims := r.stream, At(ws[k], e), ClaimsOf(ws, acts, e, k);
    && Known(end, s)
    && (if s in claims then claims[s] == r && s !in end.attachments
        else if s in end.attachments then end.attachments[s] == r
        else end.ins[s].Dropped?)
  }

  lemma AccountedStep(ws: seq<Wire>, acts: seq<Act>, env: Env, e: Side, r: AttachmentRef, k: nat)
    requires Run(ws, acts, env) && k < |acts| && Accounted(ws, acts, e, r, k)
    ensures Accounted(ws, acts, e, r, k + 1)
  {
    RunStep(ws, acts, env, k);
    RunClaims(ws, acts, env, e, r.stream, k);
    ActKeeps(ws[k], acts[k], env, e, r.stream);
    if Releases(acts[k], e, r.stream) { ReleasedKnown(ws[k], acts[k], env, e, r.stream); }
  }

  lemma {:induction false} AccountedStays(ws: seq<Wire>, acts: seq<Act>, env: Env, i: nat, k: nat, e: Side, r: AttachmentRef)
    requires Run(ws, acts, env) && i <= k <= |acts| && Accounted(ws, acts, e, r, i)
    ensures Accounted(ws, acts, e, r, k)
    decreases k - i
  {
    if i < k {
      AccountedStep(ws, acts, env, e, r, i);
      AccountedStays(ws, acts, env, i + 1, k, e, r);
    }
  }

  /**
   From its delivery on, every reference of a response is accounted for: it waits unclaimed with what
   it said, or exactly one claim was handed it, or its stream was hung up on.
   */
  lemma ReferencesAreAccountedFor(ws: seq<Wire>, acts: seq<Act>, env: Env, i: nat, k: nat, e: Side, r: AttachmentRef)
    requires Run(ws, acts, env) && Brings(ws, acts, i, e, r) && i < k <= |acts|
    ensures Accounted(ws, acts, e, r, k)
  {
    DeliveryRegisters(ws, acts, env, i, e, r);
    RunClaims(ws, acts, env, e, r.stream, i + 1);
    AccountedStays(ws, acts, env, i + 1, k, e, r);
  }

  /** The reference waits in the table, as it was delivered. */
  ghost predicate Waiting(w: Wire, e: Side, r: AttachmentRef)
  {
    r.stream in At(w, e).attachments && At(w, e).attachments[r.stream] == r
  }

  lemma {:induction false} WaitingStays(ws: seq<Wire>, acts: seq<Act>, env: Env, i: nat, k: nat, e: Side, r: AttachmentRef)
    requires Run(ws, acts, env) && i <= k <= |acts| && Waiting(ws[i], e, r)
    requires forall m :: i <= m < k ==> !Releases(acts[m], e, r.stream)
    ensures Waiting(ws[k], e, r)
    decreases k - i
  {
    if i < k {
      RunStep(ws, acts, env, i);
      RunClaims(ws, acts, env, e, r.stream, i);
      ActKeeps(ws[i], acts[i], env, e, r.stream);
      WaitingStays(ws, acts, env, i + 1, k, e, r);
    }
  }

  /** Until a delivered reference is claimed or swept, a claim finds it. */
  lemma ThereToBeClaimed(ws: seq<Wire>, acts: seq<Act>, env: Env, i: nat, k: nat, e: Side, r: AttachmentRef)
    requires Run(ws, acts, env) && Brings(ws, acts, i, e, r) && i < k <= |acts|
    requires forall m :: i < m < k ==> !Releases(acts[m], e, r.stream)
    ensures Waiting(ws[k], e, r)
  {
    DeliveryRegisters(ws, acts, env, i, e, r);
    WaitingStays(ws, acts, env, i + 1, k, e, r);
  }
}
