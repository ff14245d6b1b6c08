/** Resumable parsing over a growing buffer, independent of the grammar.

    A parser is a step function.  Given its state and the unread bytes it is
    idle (needs more bytes), advances (consumes some), or halts for good.  A
    call of the parser repeats steps until none applies.  This module proves,
    for every step function that is `Resumable`, that the outcome does not
    depend on how the bytes were cut into reads. */
module Incremental {
  import opened Text

  datatype Outcome<+S> = Idle | Halt(state: S, used: nat) | Advance(state: S, used: nat)

  datatype Progress<+S> = Progress(state: S, rest: string)

  /** What `o` does to a state and its unread bytes. */
  ghost predicate Took<S>(o: Outcome<S>, s: S, bytes: string, s': S, bytes': string) {
    match o
    case Idle => s' == s && bytes' == bytes
    case Halt(e, n) => s' == e && n <= |bytes| && bytes' == bytes[n..]
    case Advance(d, n) => s' == d && n <= |bytes| && bytes' == bytes[n..]
  }

  /** `verdict` is what a halted parser reports; it is None while healthy.
      Extending the unread bytes `a` by `b` may not change what a step does,
      except that a step which took all of `a` may be continued into `b`. */
  ghost predicate Stable<S, V>(step: (S, string) -> Outcome<S>, verdict: S -> Option<V>, s: S, a: string, b: string)
  {
    match step(s, a)
    case Idle => true
    case Halt(e, n) =>
      && n <= |a| && a != ""
      && verdict(e).Some?
      && step(e, b).Idle?
      && step(s, a + b).Halt?
      && verdict(step(s, a + b).state) == verdict(e)
    case Advance(t, n) =>
      && 0 < n <= |a|
      && (step(s, a + b) == Advance(t, n) || (n == |a| && Continues(verdict, step(t, b), n, step(s, a + b))))
  }

  /** `whole` is what `second` does after `n` bytes were already taken. */
  ghost predicate Continues<S, V>(verdict: S -> Option<V>, second: Outcome<S>, n: nat, whole: Outcome<S>)
  {
    match second
    case Idle => false
    case Halt(e, k) => whole.Halt? && verdict(e).Some? && verdict(whole.state) == verdict(e)
    case Advance(t, k) => whole == Advance(t, n + k)
  }

  ghost predicate Resumable<S(!new), V>(step: (S, string) -> Outcome<S>, verdict: S -> Option<V>)
  {
    forall s, a, b :: Stable(step, verdict, s, a, b)
  }

  /** One call of the parser: steps until none applies. */
  function Run<S(!new), V>(step: (S, string) -> Outcome<S>, ghost verdict: S -> Option<V>, s: S, buf: string): (p: Progress<S>)
    requires Resumable(step, verdict)
    decreases |buf|
  {
    match step(s, buf)
    case Idle => Progress(s, buf)
    case Halt(e, n) =>
      assert Stable(step, verdict, s, buf, "");
      Progress(e, buf[n..])
    case Advance(t, n) =>
      assert Stable(step, verdict, s, buf, "");
      Run(step, verdict, t, buf[n..])
  }

  /** Equal, or both halted with the same report. */
  ghost predicate Agree<S, V>(verdict: S -> Option<V>, p: Progress<S>, q: Progress<S>)
  {
    p == q || (verdict(p.state).Some? && verdict(p.state) == verdict(q.state))
  }

  lemma {:induction false} Unfold<S(!new), V>(step: (S, string) -> Outcome<S>, verdict: S -> Option<V>, s: S, buf: string, t: S, n: nat)
    requires Resumable(step, verdict)
    requires step(s, buf) == Advance(t, n)
    ensures n <= |buf| && Run(step, verdict, s, buf) == Run(step, verdict, t, buf[n..])
  {
    assert Stable(step, verdict, s, buf, "");
  }

  /** Parsing `a` and then `b` behind what `a` left unread agrees with parsing
      `a + b` at once. */
  lemma {:induction false} RunSplit<S(!new), V>(step: (S, string) -> Outcome<S>, verdict: S -> Option<V>, s: S, a: string, b: string)
    requires Resumable(step, verdict)
    ensures var p := Run(step, verdict, s, a);
            Agree(verdict, Run(step, verdict, s, a + b), Run(step, verdict, p.state, p.rest + b))
    decreases |a|
  {
    assert Stable(step, verdict, s, a, b);
    match step(s, a)
    case Idle =>
    case Halt(e, n) =>
      assert Stable(step, verdict, s, a, a[n..] + b);
    case Advance(t, n) =>
      if step(s, a + b) == Advance(t, n) {
        RunSplit(step, verdict, t, a[n..], b);
        assert (a + b)[n..] == a[n..] + b;
        Unfold(step, verdict, s, a + b, t, n);
      } else {
        assert a[n..] == "" && "" + b == b;
        assert Run(step, verdict, t, "") == Progress(t, "") by {
          assert Stable(step, verdict, t, "", "");
        }
        match step(t, b)
        case Halt(e, k) =>
        case Advance(u, k) =>
          Unfold(step, verdict, t, b, u, k);
          Unfold(step, verdict, s, a + b, u, n + k);
          assert (a + b)[n + k..] == b[k..];
      }
  }

  /** Feeding the pieces one read after another, each behind the unread rest. */
  function Feed<S(!new), V>(step: (S, string) -> Outcome<S>, ghost verdict: S -> Option<V>,
                            p: Progress<S>, pieces: seq<string>): (q: Progress<S>)
    requires Resumable(step, verdict)
    decreases |pieces|
  {
    if pieces == [] then p
    else Feed(step, verdict, Run(step, verdict, p.state, p.rest + pieces[0]), pieces[1..])
  }

  function Concat(pieces: seq<string>): string {
    if pieces == [] then "" else pieces[0] + Concat(pieces[1..])
  }

  /** Segmentation independence: however a stream is cut into reads, the last
      read leaves the parser as one read of the whole stream would. */
  lemma {:induction false} FeedIsRun<S(!new), V>(step: (S, string) -> Outcome<S>, verdict: S -> Option<V>,
                                                 s: S, rest: string, pieces: seq<string>)
    requires Resumable(step, verdict)
    requires pieces != []
    ensures Agree(verdict, Feed(step, verdict, Progress(s, rest), pieces),
                  Run(step, verdict, s, rest + Concat(pieces)))
    decreases |pieces|
  {
    var a := rest + pieces[0];
    var p := Run(step, verdict, s, a);
    if |pieces| == 1 {
      assert pieces[1..] == [];
      assert pieces[0] + "" == pieces[0];
    } else {
      FeedIsRun(step, verdict, p.state, p.rest, pieces[1..]);
      RunSplit(step, verdict, s, a, Concat(pieces[1..]));
      assert a + Concat(pieces[1..]) == rest + Concat(pieces);
    }
  }
}
