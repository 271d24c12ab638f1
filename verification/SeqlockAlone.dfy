/** A sequence lock's calls when nobody else moves: they end, and a read that finds an even counter needs no second
    attempt. */
module SeqlockAlone {
  import opened Prelude
  import opened Modular
  import opened Seqlock

  /** Steps of thread `t` and of nobody else; step `m` is on word `words[m]` where it touches one. */
  ghost predicate Alone(run: seq<State>, words: seq<nat>, t: nat, s: State, s': State) {
    && |run| == |words| + 1 && run[0] == s && run[|words|] == s'
    && forall m :: 0 <= m < |words| ==> StepsAlone(run, words, t, m)
  }

  ghost predicate StepsAlone(run: seq<State>, words: seq<nat>, t: nat, m: nat)
    requires m < |words| && |run| == |words| + 1
  {
    Enabled(run[m], t, Go(words[m])) && run[m + 1] == Apply(run[m], t, Go(words[m]))
  }

  lemma First(s: State, t: nat, k: nat, more: seq<State>, words: seq<nat>, s': State)
    returns (run: seq<State>, all: seq<nat>)
    requires Enabled(s, t, Go(k)) && Alone(more, words, t, Apply(s, t, Go(k)), s')
    ensures Alone(run, all, t, s, s') && |all| == |words| + 1
  {
    run, all := [s] + more, [k] + words;
    forall m | 0 <= m < |all| ensures StepsAlone(run, all, t, m) {
      if m > 0 { assert StepsAlone(more, words, t, m - 1); }
    }
  }

  lemma {:induction false} WordCount(width: nat)
    ensures |Words(width)| == width
  {
    if width > 0 { WordCount(width - 1); }
  }

  // ---------------------------------------------------------------- reading

  ghost predicate Copied(copy: Payload, data: Payload, todo: set<nat>) {
    |copy| == |data| && (forall k :: k in todo ==> k < |data|)
    && forall k :: 0 <= k < |data| && k !in todo ==> copy[k] == data[k]
  }

  lemma {:induction false} CopyAlone(s: State, t: nat) returns (run: seq<State>, words: seq<nat>)
    requires t < |s.pcs| && s.pcs[t].Reading? && s.pcs[t].s0 == s.counter && !Odd(s.counter)
    requires Copied(s.pcs[t].copy, s.data, s.pcs[t].todo)
    ensures Alone(run, words, t, s, Goes(s, t, Returned(s.data))) && |words| == |s.pcs[t].todo| + 1
    decreases |s.pcs[t].todo|
  {
    var end := Goes(s, t, Returned(s.data));
    var Reading(s0, copy, todo, from, mark) := s.pcs[t];
    if todo == {} {
      assert copy == s.data;
      run, words := First(s, t, 0, [end], [], end);
    } else {
      var k :| k in todo;
      var s1 := Apply(s, t, Go(k));
      assert s1.pcs[t] == Reading(s0, copy[k := s.data[k]], todo - {k}, from, mark);
      run, words := CopyAlone(s1, t);
      assert Goes(s1, t, Returned(s.data)) == end;
      run, words := First(s, t, k, run, words, end);
    }
  }

  /** A reader of any of the protocols that finds an even counter and is not disturbed returns the data after one
      pass, whatever it copied before: two loads of the counter and one of each word. */
  lemma ReadAlone(s: State, t: nat) returns (run: seq<State>, words: seq<nat>)
    requires Sized(s) && t < |s.pcs| && s.pcs[t].Begin? && |s.pcs[t].copy| == s.width && !Odd(s.counter)
    ensures Alone(run, words, t, s, Goes(s, t, Returned(s.data))) && |words| == s.width + 2
  {
    var s1 := Apply(s, t, Go(0));
    WordCount(s.width);
    run, words := CopyAlone(s1, t);
    assert Goes(s1, t, Returned(s.data)) == Goes(s, t, Returned(s.data));
    run, words := First(s, t, 0, run, words, Goes(s, t, Returned(s.data)));
  }

  // ---------------------------------------------------------------- updating

  lemma {:induction false} StoreAlone(s: State, t: nat, end: State) returns (run: seq<State>, words: seq<nat>)
    requires t < |s.pcs| && s.pcs[t].Copying? && Copied(s.data, s.pcs[t].next, s.pcs[t].todo)
    requires end == Goes(s, t, Copying(s.pcs[t].next, s.pcs[t].s0, {})).(data := s.pcs[t].next)
    ensures Alone(run, words, t, s, end) && |words| == |s.pcs[t].todo|
    decreases |s.pcs[t].todo|
  {
    var Copying(next, s0, todo) := s.pcs[t];
    if todo == {} {
      assert s.data == next && s.pcs[t := s.pcs[t]] == s.pcs;
      run, words := [s], [];
    } else {
      var k :| k in todo;
      var s1 := Apply(s, t, Go(k));
      assert s1.pcs[t] == Copying(next, s0, todo - {k});
      run, words := StoreAlone(s1, t, end);
      run, words := First(s, t, k, run, words, end);
    }
  }

  lemma Then(run: seq<State>, words: seq<nat>, t: nat, s: State, s1: State, k: nat)
    returns (all: seq<State>, ks: seq<nat>)
    requires Alone(run, words, t, s, s1) && Enabled(s1, t, Go(k))
    ensures Alone(all, ks, t, s, Apply(s1, t, Go(k))) && |ks| == |words| + 1
  {
    all, ks := run + [Apply(s1, t, Go(k))], words + [k];
    forall m | 0 <= m < |ks| ensures StepsAlone(all, ks, t, m) {
      if m < |words| { assert StepsAlone(run, words, t, m); }
    }
  }

  /** Where an update that nobody disturbs ends. */
  function Written(s: State, t: nat, next: Payload): State
    requires t < |s.pcs|
  {
    s.(data := next, counter := (s.counter + 2) % WRAP, bumps := s.bumps + 2, versions := s.versions + [next])
  }

  /** From the first store to the payload to the end. */
  lemma FinishAlone(s: State, t: nat, next: Payload) returns (run: seq<State>, words: seq<nat>, s': State)
    requires t < |s.pcs| && |next| == |s.data| == s.width && s.owner == Some(t)
    requires s.pcs[t].Copying? && s.pcs[t].next == next && s.pcs[t].todo == Words(s.width)
    requires s.kind != SeqLock ==> (s.pcs[t].s0 + 2) % WRAP == (s.counter + 1) % WRAP
    ensures Alone(run, words, t, s, s')
    ensures s' == s.(pcs := s.pcs[t := Idle], owner := None, data := next, bumps := s.bumps + 1,
                     counter := (s.counter + 1) % WRAP, versions := s.versions + [next])
  {
    var s1 := Goes(s, t, Copying(next, s.pcs[t].s0, {})).(data := next);
    run, words := StoreAlone(s, t, s1);
    run, words := Then(run, words, t, s, s1, 0);
    s' := Apply(s1, t, Go(0));
    if s.kind == RouteCache {
      run, words := Then(run, words, t, s, s', 0);
      s' := Apply(s', t, Go(0));
    }
  }

  /** From the load of the counter on. */
  lemma SectionAlone(s: State, t: nat, next: Payload) returns (run: seq<State>, words: seq<nat>, s': State)
    requires t < |s.pcs| && |next| == |s.data| == s.width && s.owner == Some(t) && s.counter < WRAP
    requires s.pcs[t] == LoadSeq(next)
    ensures Alone(run, words, t, s, s') && s' == Written(s, t, next).(pcs := s.pcs[t := Idle], owner := None)
  {
    var s1 := Apply(s, t, Go(0));
    Twice(s.counter);
    if s.kind == SeqLock {
      run, words, s' := FinishAlone(s1, t, next);
    } else {
      var s2 := Apply(s1, t, Go(0));
      run, words, s' := FinishAlone(s2, t, next);
      run, words := First(s1, t, 0, run, words, s');
    }
    run, words := First(s, t, 0, run, words, s');
  }

  lemma Twice(counter: nat)
    ensures ((counter + 1) % WRAP + 1) % WRAP == (counter + 2) % WRAP
  {
    WrappedSuccessor(counter + 1, 1, WRAP);
  }

  /** An update that nobody disturbs stores its payload, moves the counter on by two, and ends outside. */
  lemma UpdateAlone(s: State, t: nat, next: Payload) returns (run: seq<State>, words: seq<nat>, s': State)
    requires Sized(s) && Enabled(s, t, Update(next)) && s.owner == None
    ensures Alone(run, words, t, Apply(s, t, Update(next)), s') && s' == Written(s, t, next)
  {
    var s1 := Apply(s, t, Update(next));
    assert s.pcs[t := Idle] == s.pcs;
    if s.kind == RouteCache {
      var s2 := Apply(s1, t, Go(0));
      run, words, s' := SectionAlone(s2, t, next);
      run, words := First(s1, t, 0, run, words, s');
    } else {
      run, words, s' := SectionAlone(s1, t, next);
    }
  }
}
