/** One namespace level: every leaf key is fetched by its own task, and the
    level succeeds only when every task did. */
module LevelFetcher {
  import opened Wrappers
  import opened Content
  import opened Store

  /** Why one key's task failed. */
  datatype KeyError =
    | TimeParseFailed(lastModified: string, cause: string)
    | RelPathFailed(key: string, cause: string)
    | FetchFailed(key: string, cause: string)

  /** The aggregated failure of a level: the number of failed tasks and their
      errors, in the order the tasks reported them. */
  datatype LevelError = LevelError(count: nat, messages: seq<KeyError>)

  /** The work of one task: parse the timestamp, compute the name relative to
      `base`, then fetch. The first step that fails decides the error and the
      later steps are not attempted. */
  function FetchKey(env: Env, base: string, k: Key): (r: Result<S3Content, KeyError>)
    ensures r.Success? <==>
      env.parseTime(k.lastModified).Success? && env.rel(base, k.key).Success? && env.get(k.key).Success?
    ensures r.Success? ==>
      r.value.name == env.rel(base, k.key).value &&
      r.value.lastMod == env.parseTime(k.lastModified).value &&
      r.value.data == env.get(k.key).value
    ensures r.Failure? && r.error.TimeParseFailed? <==> env.parseTime(k.lastModified).Failure?
    ensures r.Failure? && r.error.RelPathFailed? <==>
      env.parseTime(k.lastModified).Success? && env.rel(base, k.key).Failure?
    ensures r.Failure? && !r.error.TimeParseFailed? ==> r.error.key == k.key
    ensures env.parseTime(k.lastModified).Failure? ==>
      r == Failure(TimeParseFailed(k.lastModified, env.parseTime(k.lastModified).error))
    ensures env.parseTime(k.lastModified).Success? && env.rel(base, k.key).Failure? ==>
      r == Failure(RelPathFailed(k.key, env.rel(base, k.key).error))
    ensures env.parseTime(k.lastModified).Success? && env.rel(base, k.key).Success? && env.get(k.key).Failure? ==>
      r == Failure(FetchFailed(k.key, env.get(k.key).error))
  {
    match env.parseTime(k.lastModified)
    case Failure(e) => Failure(TimeParseFailed(k.lastModified, e))
    case Success(lastMod) =>
      match env.rel(base, k.key)
      case Failure(e) => Failure(RelPathFailed(k.key, e))
      case Success(relPath) =>
        match env.get(k.key)
        case Failure(e) => Failure(FetchFailed(k.key, e))
        case Success(data) => Success(S3Content(relPath, lastMod, data))
  }

  /** The outcome of every key's task, in the order of `keys`: one per key. */
  function Outcomes(env: Env, base: string, keys: seq<Key>): (rs: seq<Result<S3Content, KeyError>>)
    ensures |rs| == |keys|
    ensures forall i :: 0 <= i < |keys| ==> rs[i] == FetchKey(env, base, keys[i])
  {
    if keys == [] then [] else [FetchKey(env, base, keys[0])] + Outcomes(env, base, keys[1..])
  }

  /** The contents produced by the successful tasks among `keys`, in the order of `keys`. */
  function Fetched(env: Env, base: string, keys: seq<Key>): seq<S3Content>
  {
    Oks(Outcomes(env, base, keys))
  }

  /** The errors of the failed tasks among `keys`, in the order of `keys`. */
  function Failed(env: Env, base: string, keys: seq<Key>): seq<KeyError>
  {
    Errs(Outcomes(env, base, keys))
  }

  /** What the level returns once the tasks finished in the order `completion`:
      the contents as they arrived, or, if any task failed, only the errors. */
  function LevelResult(env: Env, base: string, completion: seq<Key>): Result<seq<S3Content>, LevelError>
  {
    var errs := Failed(env, base, completion);
    if |errs| != 0 then Failure(LevelError(|errs|, errs))
    else Success(Fetched(env, base, completion))
  }

  lemma {:induction false} OutcomesAppend(env: Env, base: string, a: seq<Key>, b: seq<Key>)
    ensures Outcomes(env, base, a + b) == Outcomes(env, base, a) + Outcomes(env, base, b)
    ensures Fetched(env, base, a + b) == Fetched(env, base, a) + Fetched(env, base, b)
    ensures Failed(env, base, a + b) == Failed(env, base, a) + Failed(env, base, b)
  {
    if a == [] {
      assert a + b == b;
    } else {
      assert (a + b)[1..] == a[1..] + b;
      OutcomesAppend(env, base, a[1..], b);
      assert [FetchKey(env, base, a[0])] + (Outcomes(env, base, a[1..]) + Outcomes(env, base, b))
        == ([FetchKey(env, base, a[0])] + Outcomes(env, base, a[1..])) + Outcomes(env, base, b);
    }
    OksAppend(Outcomes(env, base, a), Outcomes(env, base, b));
    ErrsAppend(Outcomes(env, base, a), Outcomes(env, base, b));
  }

  /** The first key's outcome comes first among the contents (on success) or
      among the errors (on failure). */
  lemma FetchedCons(env: Env, base: string, keys: seq<Key>)
    requires keys != []
    ensures FetchKey(env, base, keys[0]).Success? ==>
      Fetched(env, base, keys) == [FetchKey(env, base, keys[0]).value] + Fetched(env, base, keys[1..]) &&
      Failed(env, base, keys) == Failed(env, base, keys[1..])
    ensures FetchKey(env, base, keys[0]).Failure? ==>
      Fetched(env, base, keys) == Fetched(env, base, keys[1..]) &&
      Failed(env, base, keys) == [FetchKey(env, base, keys[0]).error] + Failed(env, base, keys[1..])
  {
  }

  /** Every key yields exactly one outcome, and no key's failure hides another
      key's outcome. */
  lemma {:induction false} OneOutcomePerKey(env: Env, base: string, keys: seq<Key>)
    ensures |Fetched(env, base, keys)| + |Failed(env, base, keys)| == |keys|
    ensures |Failed(env, base, keys)| == 0 <==> forall k :: k in keys ==> FetchKey(env, base, k).Success?
    ensures |Failed(env, base, keys)| == 0 ==>
      forall i :: 0 <= i < |keys| ==> Fetched(env, base, keys)[i] == FetchKey(env, base, keys[i]).value
  {
    if keys != [] {
      OneOutcomePerKey(env, base, keys[1..]);
      assert forall k :: k in keys <==> k == keys[0] || k in keys[1..];
      if |Failed(env, base, keys)| == 0 {
        forall i | 0 <= i < |keys|
          ensures Fetched(env, base, keys)[i] == FetchKey(env, base, keys[i]).value
        {
          if i > 0 {
            assert keys[i] == keys[1..][i - 1];
          }
        }
      }
    }
  }

  /** The outcomes of a reordering of the keys are a reordering of the outcomes. */
  lemma {:induction false} OutcomesPermuted(env: Env, base: string, a: seq<Key>, b: seq<Key>)
    requires multiset(a) == multiset(b)
    ensures multiset(Outcomes(env, base, a)) == multiset(Outcomes(env, base, b))
    decreases |a|
  {
    if a == [] {
      assert |b| == |multiset(b)| == 0;
    } else {
      assert a == [a[0]] + a[1..];
      var i := RemoveFromPermutation(a[0], a[1..], b);
      var left, right := b[..i], b[i + 1..];
      OutcomesPermuted(env, base, a[1..], left + right);
      OutcomesAppend(env, base, left + [a[0]], right);
      OutcomesAppend(env, base, left, [a[0]]);
      OutcomesAppend(env, base, left, right);
      assert Outcomes(env, base, [a[0]]) == [FetchKey(env, base, a[0])];
    }
  }

  /** Which tasks succeed and which fail does not depend on the order in which
      they finish. */
  lemma CompletionOrderIrrelevant(env: Env, base: string, a: seq<Key>, b: seq<Key>)
    requires multiset(a) == multiset(b)
    ensures multiset(Fetched(env, base, a)) == multiset(Fetched(env, base, b))
    ensures multiset(Failed(env, base, a)) == multiset(Failed(env, base, b))
  {
    OutcomesPermuted(env, base, a, b);
    SplitPermuted(Outcomes(env, base, a), Outcomes(env, base, b));
  }

  /** The level is all-or-nothing: it succeeds exactly when every key
      succeeds, and then yields one content per key (in some order); otherwise
      it yields no content and an error counting every failed key. */
  lemma AllOrNothing(env: Env, base: string, keys: seq<Key>, completion: seq<Key>)
    requires multiset(completion) == multiset(keys)
    ensures LevelResult(env, base, completion).Success? <==>
      forall k :: k in keys ==> FetchKey(env, base, k).Success?
    ensures LevelResult(env, base, completion).Success? ==>
      |LevelResult(env, base, completion).value| == |keys| &&
      multiset(LevelResult(env, base, completion).value) == multiset(Fetched(env, base, keys))
    ensures LevelResult(env, base, completion).Failure? ==>
      var e := LevelResult(env, base, completion).error;
      e.count == |e.messages| == |Failed(env, base, keys)| > 0 &&
      multiset(e.messages) == multiset(Failed(env, base, keys))
  {
    CompletionOrderIrrelevant(env, base, completion, keys);
    OneOutcomePerKey(env, base, keys);
    OneOutcomePerKey(env, base, completion);
    assert |Fetched(env, base, completion)| == |multiset(Fetched(env, base, completion))|;
    assert |Failed(env, base, completion)| == |multiset(Failed(env, base, completion))|;
    assert |Failed(env, base, keys)| == |multiset(Failed(env, base, keys))|;
    assert forall k :: k in keys <==> k in completion by {
      forall k ensures k in keys <==> k in completion {
        assert k in keys <==> k in multiset(keys);
        assert k in completion <==> k in multiset(completion);
      }
    }
  }

  /** The tasks of a level, finishing in the order `completion`: each posts its
      content to one channel or its error to the other. */
  method RunTasks(env: Env, base: string, completion: seq<Key>)
    returns (contentC: seq<S3Content>, errc: seq<KeyError>)
    ensures contentC == Fetched(env, base, completion)
    ensures errc == Failed(env, base, completion)
  {
    contentC, errc := [], [];
    for i := 0 to |completion|
      invariant Fetched(env, base, completion) == contentC + Fetched(env, base, completion[i..])
      invariant Failed(env, base, completion) == errc + Failed(env, base, completion[i..])
    {
      var rest := completion[i..];
      assert rest[0] == completion[i] && rest[1..] == completion[i + 1..];
      FetchedCons(env, base, rest);
      var outcome := FetchKey(env, base, completion[i]);
      if outcome.Success? {
        assert contentC + ([outcome.value] + Fetched(env, base, rest[1..])) ==
          (contentC + [outcome.value]) + Fetched(env, base, rest[1..]);
        contentC := contentC + [outcome.value];
      } else {
        assert errc + ([outcome.error] + Failed(env, base, rest[1..])) ==
          (errc + [outcome.error]) + Failed(env, base, rest[1..]);
        errc := errc + [outcome.error];
      }
    }
    assert completion[|completion|..] == [];
  }

  /** `fetchAll`: run one task per key, the tasks finishing in the order
      `completion` and each posting its content or its error to a channel;
      after the join, drain both channels and fail if any error arrived. */
  method FetchAll(env: Env, base: string, keys: seq<Key>, completion: seq<Key>)
    returns (r: Result<seq<S3Content>, LevelError>)
    requires multiset(completion) == multiset(keys)
    ensures r == LevelResult(env, base, completion)
    ensures r.Success? <==> forall k :: k in keys ==> FetchKey(env, base, k).Success?
    ensures r.Success? ==> |r.value| == |keys| && multiset(r.value) == multiset(Fetched(env, base, keys))
    ensures r.Failure? ==>
      r.error.count == |r.error.messages| == |Failed(env, base, keys)| > 0 &&
      multiset(r.error.messages) == multiset(Failed(env, base, keys))
  {
    var contentC, errc := RunTasks(env, base, completion);

    var contents: seq<S3Content> := [];
    for j := 0 to |contentC|
      invariant contents == contentC[..j]
    {
      assert contentC[..j + 1] == contentC[..j] + [contentC[j]];
      contents := contents + [contentC[j]];
    }
    assert contentC[..|contentC|] == contentC;

    var errs: seq<KeyError> := [];
    for j := 0 to |errc|
      invariant errs == errc[..j]
    {
      assert errc[..j + 1] == errc[..j] + [errc[j]];
      errs := errs + [errc[j]];
    }
    assert errc[..|errc|] == errc;

    if |errs| != 0 {
      r := Failure(LevelError(|errs|, errs));
    } else {
      r := Success(contents);
    }
    AllOrNothing(env, base, keys, completion);
  }
}
