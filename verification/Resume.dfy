/**
 Interruption and resumption: a transfer that breaks off leaves what arrived, and offering it again
 takes it from there to the end.
 */
module Resume {
  import opened Base
  import opened Receive

  /** The rest of the stream, the checks, and into place. */
  function Closing(c: nat, rest: seq<byte>): seq<Act>
  {
    [Write(c, rest), Seal(c), Weigh(c), LookAgain(c), Publish(c), End(c)]
  }

  /** Some of the stream, and then it breaks off. */
  function BreakingOff(c: nat, some: seq<byte>): seq<Act>
  {
    [Write(c, some), Break(c), End(c)]
  }

  /** Nobody is at this transfer, and nothing is in its place. */
  ghost predicate Free(w: World, c: nat, o: Offer)
  {
    c !in w.calls && o.id !in w.claims && Dest(o.name) !in w.files
  }

  /** The files once a call has ready its part file, which then holds what it keeps of it. */
  function OpenedFiles(files: Files, o: Offer, env: Env): (r: Files)
    ensures PartOf(o, env) in r && r[PartOf(o, env)] == Leftover(files, o, env)
    ensures forall p | p != PartOf(o, env) :: p in r <==> p in files
  {
    if ResumeAt(files, o, env) > 0 then files else files[PartOf(o, env) := []]
  }

  /** The call, once it has kept and written this much. */
  function Written(o: Offer, n: nat, bytes: seq<byte>, phase: Phase): Call
  {
    Call(o, phase, n, bytes, |bytes|)
  }

  lemma StartsFromLeftover(w: World, c: nat, o: Offer, env: Env)
    requires Free(w, c, o)
    ensures var n, kept := ResumeAt(w.files, o, env), Leftover(w.files, o, env);
      && |kept| == n
      && Leads(w, Opening(c, o),
               With(World(w.files, w.claims + {o.id}, w.calls), c, OpenedFiles(w.files, o, env), Written(o, n, kept, Writing)), env)
  {
    Opens(w, c, o, env);
  }

  lemma Ends(w: World, c: nat, o: Offer, files: Files, call: Call, env: Env)
    requires c !in w.calls && o.id !in w.claims && call.offer == o && (call.phase.Done? || call.phase.Failed?)
    ensures Leads(With(World(w.files, w.claims + {o.id}, w.calls), c, files, call), [End(c)], World(files, w.claims, w.calls), env)
  {
    var v := With(World(w.files, w.claims + {o.id}, w.calls), c, files, call);
    assert v.claims - {o.id} == w.claims && v.calls - {c} == w.calls;
    assert [End(c)] == [End(c)] + [];
    OneAct(v, End(c), [], World(files, w.claims, w.calls), env);
  }

  /** The rest arrives, passes every check, and is renamed into place. */
  lemma Closes(v: World, c: nat, o: Offer, env: Env, n: nat, files: Files, kept: seq<byte>, rest: seq<byte>, w': World)
    requires PartOf(o, env) in files && files[PartOf(o, env)] == kept && Dest(o.name) !in files
    requires |kept + rest| == o.size && env.sha(kept + rest) == o.sha
    requires Leads(With(v, c, (files - {PartOf(o, env)})[Dest(o.name) := kept + rest], Written(o, n, kept + rest, Done)), [End(c)], w', env)
    ensures Leads(With(v, c, files, Written(o, n, kept, Writing)), Closing(c, rest), w', env)
  {
    var part, all := PartOf(o, env), kept + rest;
    var now := files[part := all];
    var done := (files - {part})[Dest(o.name) := all];
    assert now - {part} == files - {part};
    OwnMove(v, c, Publish(c), now, Written(o, n, all, Cleared), done, Written(o, n, all, Done), [End(c)], w', env);
    OwnMove(v, c, LookAgain(c), now, Written(o, n, all, Weighed), now, Written(o, n, all, Cleared), [Publish(c), End(c)], w', env);
    OwnMove(v, c, Weigh(c), now, Written(o, n, all, Sealed), now, Written(o, n, all, Weighed), [LookAgain(c), Publish(c), End(c)], w', env);
    Checks(v, c, o, env, n, files, kept, rest, w');
  }

  lemma Checks(v: World, c: nat, o: Offer, env: Env, n: nat, files: Files, kept: seq<byte>, rest: seq<byte>, w': World)
    requires PartOf(o, env) in files && files[PartOf(o, env)] == kept
    requires |kept + rest| == o.size && env.sha(kept + rest) == o.sha
    requires Leads(With(v, c, files[PartOf(o, env) := kept + rest], Written(o, n, kept + rest, Sealed)),
                   [Weigh(c), LookAgain(c), Publish(c), End(c)], w', env)
    ensures Leads(With(v, c, files, Written(o, n, kept, Writing)), Closing(c, rest), w', env)
  {
    var all := kept + rest;
    var now := files[PartOf(o, env) := all];
    var after := [Weigh(c), LookAgain(c), Publish(c), End(c)];
    OwnMove(v, c, Seal(c), now, Written(o, n, all, Writing), now, Written(o, n, all, Sealed), after, w', env);
    OwnMove(v, c, Write(c, rest), files, Written(o, n, kept, Writing), now, Written(o, n, all, Writing), [Seal(c)] + after, w', env);
    assert Closing(c, rest) == [Write(c, rest)] + ([Seal(c)] + after);
  }

  /**
   From any state at all in which nobody is at the transfer and nothing is in its place: offered, the
   call takes what is left of an earlier one, and with the rest of the right bytes it ends with exactly
   them in place, no part file, and everything else as it was.
   */
  lemma Finishes(w: World, c: nat, o: Offer, env: Env, rest: seq<byte>)
    requires Free(w, c, o)
    requires var all := Leftover(w.files, o, env) + rest; |all| == o.size && env.sha(all) == o.sha
    ensures var all := Leftover(w.files, o, env) + rest;
      Leads(w, Opening(c, o) + Closing(c, rest), World((w.files - {PartOf(o, env)})[Dest(o.name) := all], w.claims, w.calls), env)
  {
    var kept, n, ready := Leftover(w.files, o, env), ResumeAt(w.files, o, env), OpenedFiles(w.files, o, env);
    var v := World(w.files, w.claims + {o.id}, w.calls);
    var files := (ready - {PartOf(o, env)})[Dest(o.name) := kept + rest];
    var w' := World(files, w.claims, w.calls);
    assert ready - {PartOf(o, env)} == w.files - {PartOf(o, env)};
    StartsFromLeftover(w, c, o, env);
    Ends(w, c, o, files, Written(o, n, kept + rest, Done), env);
    Closes(v, c, o, env, n, ready, kept, rest, w');
    LeadsOn(w, Opening(c, o), With(v, c, ready, Written(o, n, kept, Writing)), Closing(c, rest), w', env);
  }

  lemma Breaks(v: World, c: nat, o: Offer, env: Env, n: nat, files: Files, kept: seq<byte>, some: seq<byte>, w': World)
    requires PartOf(o, env) in files && files[PartOf(o, env)] == kept && |kept + some| <= o.size
    requires Leads(With(v, c, files[PartOf(o, env) := kept + some], Written(o, n, kept + some, Failed)), [End(c)], w', env)
    ensures Leads(With(v, c, files, Written(o, n, kept, Writing)), BreakingOff(c, some), w', env)
  {
    var now, all := files[PartOf(o, env) := kept + some], kept + some;
    OwnMove(v, c, Break(c), now, Written(o, n, all, Writing), now, Written(o, n, all, Failed), [End(c)], w', env);
    OwnMove(v, c, Write(c, some), files, Written(o, n, kept, Writing), now, Written(o, n, all, Writing), [Break(c), End(c)], w', env);
    assert BreakingOff(c, some) == [Write(c, some)] + [Break(c), End(c)];
  }

  /** Broken off after `some` of the stream, it ends with that added to the part file, and everything else as it was. */
  lemma BreaksOff(w: World, c: nat, o: Offer, env: Env, some: seq<byte>)
    requires Free(w, c, o) && |Leftover(w.files, o, env) + some| <= o.size
    ensures var kept := Leftover(w.files, o, env) + some;
      Leads(w, Opening(c, o) + BreakingOff(c, some), World(w.files[PartOf(o, env) := kept], w.claims, w.calls), env)
  {
    var left, n, ready := Leftover(w.files, o, env), ResumeAt(w.files, o, env), OpenedFiles(w.files, o, env);
    var v, kept := World(w.files, w.claims + {o.id}, w.calls), left + some;
    var files := ready[PartOf(o, env) := kept];
    var w' := World(files, w.claims, w.calls);
    assert files == w.files[PartOf(o, env) := kept];
    StartsFromLeftover(w, c, o, env);
    Ends(w, c, o, files, Written(o, n, kept, Failed), env);
    Breaks(v, c, o, env, n, ready, left, some, w');
    LeadsOn(w, Opening(c, o), With(v, c, ready, Written(o, n, left, Writing)), BreakingOff(c, some), w', env);
  }

  /** Interrupted anywhere and offered again, it is finished with the bytes that had not arrived. */
  lemma ResumesWhereItBroke(w: World, c: nat, d: nat, o: Offer, env: Env, some: seq<byte>, rest: seq<byte>)
    requires Free(w, c, o) && Free(w, d, o)
    requires var all := Leftover(w.files, o, env) + some + rest; |all| == o.size && env.sha(all) == o.sha
    ensures var all := Leftover(w.files, o, env) + some + rest;
      Leads(w, (Opening(c, o) + BreakingOff(c, some)) + (Opening(d, o) + Closing(d, rest)),
            World((w.files - {PartOf(o, env)})[Dest(o.name) := all], w.claims, w.calls), env)
  {
    var kept := Leftover(w.files, o, env) + some;
    var broken := World(w.files[PartOf(o, env) := kept], w.claims, w.calls);
    BreaksOff(w, c, o, env, some);
    assert Leftover(broken.files, o, env) == kept;
    assert broken.files - {PartOf(o, env)} == w.files - {PartOf(o, env)};
    Finishes(broken, d, o, env, rest);
    LeadsOn(w, Opening(c, o) + BreakingOff(c, some), broken, Opening(d, o) + Closing(d, rest),
            World((w.files - {PartOf(o, env)})[Dest(o.name) := kept + rest], w.claims, w.calls), env);
  }
}
