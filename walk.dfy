/** The depth-first, pre-order walk of the namespace under a root path. */
module PathWalker {
  import opened Wrappers
  import opened Content
  import opened Store
  import opened LevelFetcher

  /** Why a walk failed. A failure deeper in the tree reaches the top unchanged. */
  datatype WalkError =
    | ListFailed(path: string, cause: string)
    | LevelFailed(path: string, failures: LevelError)

  /** What the walk calls to fetch one level's leaves relative to a base path. */
  type LevelFetch = (string, seq<Key>) -> Result<seq<S3Content>, LevelError>

  /** The level fetcher of the model: the tasks of a level finish in the
      order the scheduler gives, and the level is joined as `fetchAll` does. */
  function FetchAllOf(env: Env): LevelFetch
  {
    (base: string, keys: seq<Key>) => LevelResult(env, base, env.schedule(keys))
  }

  /** `fetchPath`: list `path`; fetch its leaves relative to `root`; then walk
      every child prefix in listing order, appending each result. */
  function Walk(env: Env, fetchAll: LevelFetch, root: string, path: string): Result<seq<S3Content>, WalkError>
    requires BoundedPrefixes(env.list)
    decreases MaxKeyLength - |path|, 1
  {
    match env.list(path)
    case Failure(cause) => Failure(ListFailed(path, cause))
    case Success(listing) =>
      match fetchAll(root, listing.contents)
      case Failure(e) => Failure(LevelFailed(path, e))
      case Success(level) => WalkChildren(env, fetchAll, root, path, listing.commonPrefixes, level)
  }

  /** The loop over the child prefixes of `parent`, `acc` holding what was
      gathered so far; the first failing child ends it. */
  function WalkChildren(env: Env, fetchAll: LevelFetch, root: string, parent: string, folders: seq<string>, acc: seq<S3Content>)
    : Result<seq<S3Content>, WalkError>
    requires BoundedPrefixes(env.list)
    requires ChildrenExtend(parent, folders)
    decreases MaxKeyLength - |parent|, 0, |folders|
  {
    if folders == [] then Success(acc)
    else
      match Walk(env, fetchAll, root, folders[0])
      case Failure(e) => Failure(e)
      case Success(sub) => WalkChildren(env, fetchAll, root, parent, folders[1..], acc + sub)
  }

  /** The contents gathered by the walks of `folders`, concatenated in order
      (nothing for a child whose walk fails). */
  ghost function ChildContents(env: Env, fetchAll: LevelFetch, root: string, folders: seq<string>): seq<S3Content>
    requires BoundedPrefixes(env.list)
    requires forall f :: f in folders ==> |f| <= MaxKeyLength
  {
    if folders == [] then []
    else
      (match Walk(env, fetchAll, root, folders[0]) case Success(v) => v case Failure(_) => [])
      + ChildContents(env, fetchAll, root, folders[1..])
  }

  /** The child loop succeeds exactly when every child walk does. */
  lemma {:induction false} WalkChildrenSucceeds(
    env: Env, fetchAll: LevelFetch, root: string, parent: string, folders: seq<string>, acc: seq<S3Content>)
    requires BoundedPrefixes(env.list)
    requires ChildrenExtend(parent, folders)
    ensures WalkChildren(env, fetchAll, root, parent, folders, acc).Success? <==>
      forall i :: 0 <= i < |folders| ==> Walk(env, fetchAll, root, folders[i]).Success?
    decreases |folders|
  {
    if folders != [] {
      var rest := folders[1..];
      assert forall i :: 0 < i < |folders| ==> folders[i] == rest[i - 1];
      var first := Walk(env, fetchAll, root, folders[0]);
      if first.Success? {
        WalkChildrenSucceeds(env, fetchAll, root, parent, rest, acc + first.value);
      }
    }
  }

  /** A successful child loop appends the children's results in listing order. */
  lemma {:induction false} WalkChildrenAppends(
    env: Env, fetchAll: LevelFetch, root: string, parent: string, folders: seq<string>, acc: seq<S3Content>)
    requires BoundedPrefixes(env.list)
    requires ChildrenExtend(parent, folders)
    ensures WalkChildren(env, fetchAll, root, parent, folders, acc).Success? ==>
      WalkChildren(env, fetchAll, root, parent, folders, acc).value == acc + ChildContents(env, fetchAll, root, folders)
    decreases |folders|
  {
    if folders == [] {
      assert acc + [] == acc;
    } else if WalkChildren(env, fetchAll, root, parent, folders, acc).Success? {
      var first := Walk(env, fetchAll, root, folders[0]).value;
      WalkChildrenAppends(env, fetchAll, root, parent, folders[1..], acc + first);
      var tail := ChildContents(env, fetchAll, root, folders[1..]);
      assert acc + first + tail == acc + (first + tail);
    }
  }

  /** A failing child loop reports the error of the first failing child, those
      before it having succeeded. */
  lemma {:induction false} WalkChildrenFails(
    env: Env, fetchAll: LevelFetch, root: string, parent: string, folders: seq<string>, acc: seq<S3Content>)
    requires BoundedPrefixes(env.list)
    requires ChildrenExtend(parent, folders)
    ensures WalkChildren(env, fetchAll, root, parent, folders, acc).Failure? ==>
      exists j :: 0 <= j < |folders| &&
        (forall i :: 0 <= i < j ==> Walk(env, fetchAll, root, folders[i]).Success?) &&
        Walk(env, fetchAll, root, folders[j]) == Failure(WalkChildren(env, fetchAll, root, parent, folders, acc).error)
    decreases |folders|
  {
    if folders != [] {
      var rest := folders[1..];
      var first := Walk(env, fetchAll, root, folders[0]);
      if first.Success? {
        WalkChildrenFails(env, fetchAll, root, parent, rest, acc + first.value);
        var r := WalkChildren(env, fetchAll, root, parent, rest, acc + first.value);
        if r.Failure? {
          var j :| 0 <= j < |rest| &&
            (forall i :: 0 <= i < j ==> Walk(env, fetchAll, root, rest[i]).Success?) &&
            Walk(env, fetchAll, root, rest[j]) == Failure(r.error);
          assert forall i :: 0 < i <= j + 1 ==> folders[i] == rest[i - 1];
          assert folders[j + 1] == rest[j];
        }
      }
    }
  }

  /** Once a child walk has failed, the child prefixes listed after it are
      never walked: appending more of them leaves the loop's result unchanged. */
  lemma {:induction false} WalkChildrenSkipsLater(
    env: Env, fetchAll: LevelFetch, root: string, parent: string,
    folders: seq<string>, more: seq<string>, acc: seq<S3Content>)
    requires BoundedPrefixes(env.list)
    requires ChildrenExtend(parent, folders) && ChildrenExtend(parent, more)
    requires WalkChildren(env, fetchAll, root, parent, folders, acc).Failure?
    ensures WalkChildren(env, fetchAll, root, parent, folders + more, acc) ==
      WalkChildren(env, fetchAll, root, parent, folders, acc)
    decreases |folders|
  {
    assert (folders + more)[0] == folders[0] && (folders + more)[1..] == folders[1..] + more;
    var first := Walk(env, fetchAll, root, folders[0]);
    if first.Success? {
      WalkChildrenSkipsLater(env, fetchAll, root, parent, folders[1..], more, acc + first.value);
    }
  }

  /** On success the walk of `path` yields this level's contents first, then
      the result of each child prefix's walk, concatenated in listing order.
      The level's own leaves therefore precede every deeper leaf. */
  lemma WalkOrder(env: Env, fetchAll: LevelFetch, root: string, path: string)
    requires BoundedPrefixes(env.list)
    ensures Walk(env, fetchAll, root, path).Success? ==>
      && env.list(path).Success?
      && var listing := env.list(path).value;
      && var level := fetchAll(root, listing.contents);
      && level.Success?
      && (forall i :: 0 <= i < |listing.commonPrefixes| ==> Walk(env, fetchAll, root, listing.commonPrefixes[i]).Success?)
      && Walk(env, fetchAll, root, path).value == level.value + ChildContents(env, fetchAll, root, listing.commonPrefixes)
      && level.value <= Walk(env, fetchAll, root, path).value
  {
    if env.list(path).Success? {
      var listing := env.list(path).value;
      var level := fetchAll(root, listing.contents);
      if level.Success? {
        WalkChildrenSucceeds(env, fetchAll, root, path, listing.commonPrefixes, level.value);
        WalkChildrenAppends(env, fetchAll, root, path, listing.commonPrefixes, level.value);
      }
    }
  }

  /** A failing listing, a failing level or a failing child aborts the walk
      with that failure and no contents; children after the first failing
      one do not contribute. */
  lemma WalkAborts(env: Env, fetchAll: LevelFetch, root: string, path: string)
    requires BoundedPrefixes(env.list)
    ensures env.list(path).Failure? ==>
      Walk(env, fetchAll, root, path) == Failure(ListFailed(path, env.list(path).error))
    ensures env.list(path).Success? ==>
      var listing := env.list(path).value;
      var level := fetchAll(root, listing.contents);
      && (level.Failure? ==> Walk(env, fetchAll, root, path) == Failure(LevelFailed(path, level.error)))
      && (level.Success? && Walk(env, fetchAll, root, path).Failure? ==>
          exists j :: 0 <= j < |listing.commonPrefixes| &&
            (forall i :: 0 <= i < j ==> Walk(env, fetchAll, root, listing.commonPrefixes[i]).Success?) &&
            Walk(env, fetchAll, root, listing.commonPrefixes[j]) == Walk(env, fetchAll, root, path))
  {
    if env.list(path).Success? {
      var listing := env.list(path).value;
      var level := fetchAll(root, listing.contents);
      if level.Success? {
        WalkChildrenFails(env, fetchAll, root, path, listing.commonPrefixes, level.value);
      }
    }
  }

  /** The keys of the subtree at `path`, in pre-order: each level's leaves,
      then the subtrees of its children in listing order. */
  ghost function SubtreeKeys(env: Env, path: string): seq<Key>
    requires BoundedPrefixes(env.list)
    decreases MaxKeyLength - |path|, 1
  {
    match env.list(path)
    case Failure(_) => []
    case Success(listing) => listing.contents + ForestKeys(env, path, listing.commonPrefixes)
  }

  ghost function ForestKeys(env: Env, parent: string, folders: seq<string>): seq<Key>
    requires BoundedPrefixes(env.list)
    requires ChildrenExtend(parent, folders)
    decreases MaxKeyLength - |parent|, 0, |folders|
  {
    if folders == [] then [] else SubtreeKeys(env, folders[0]) + ForestKeys(env, parent, folders[1..])
  }

  /** Every listing in the subtree at `path` succeeds and every leaf key's
      task, relative to `root`, succeeds. */
  ghost predicate SubtreeOk(env: Env, root: string, path: string)
    requires BoundedPrefixes(env.list)
    decreases MaxKeyLength - |path|, 1
  {
    match env.list(path)
    case Failure(_) => false
    case Success(listing) =>
      (forall k :: k in listing.contents ==> FetchKey(env, root, k).Success?) &&
      ForestOk(env, root, path, listing.commonPrefixes)
  }

  ghost predicate ForestOk(env: Env, root: string, parent: string, folders: seq<string>)
    requires BoundedPrefixes(env.list)
    requires ChildrenExtend(parent, folders)
    decreases MaxKeyLength - |parent|, 0, |folders|
  {
    folders == [] || (SubtreeOk(env, root, folders[0]) && ForestOk(env, root, parent, folders[1..]))
  }

  /** The walk succeeds exactly when every listing and every fetch in the
      subtree does, and then yields exactly one entry per leaf key of the
      subtree: the content fetched for it relative to the original root. */
  lemma {:induction false} WalkComplete(env: Env, root: string, path: string)
    requires BoundedPrefixes(env.list) && IsScheduler(env.schedule)
    ensures Walk(env, FetchAllOf(env), root, path).Success? <==> SubtreeOk(env, root, path)
    ensures Walk(env, FetchAllOf(env), root, path).Success? ==>
      |Walk(env, FetchAllOf(env), root, path).value| == |SubtreeKeys(env, path)| &&
      multiset(Walk(env, FetchAllOf(env), root, path).value) == multiset(Fetched(env, root, SubtreeKeys(env, path)))
    decreases MaxKeyLength - |path|, 1
  {
    match env.list(path) {
      case Failure(_) =>
      case Success(listing) =>
        var keys := listing.contents;
        AllOrNothing(env, root, keys, env.schedule(keys));
        var level := LevelResult(env, root, env.schedule(keys));
        assert FetchAllOf(env)(root, keys) == level;
        if level.Success? {
          WalkChildrenComplete(env, root, path, listing.commonPrefixes, level.value);
          OutcomesAppend(env, root, keys, ForestKeys(env, path, listing.commonPrefixes));
        }
    }
  }

  lemma {:induction false} WalkChildrenComplete(
    env: Env, root: string, parent: string, folders: seq<string>, acc: seq<S3Content>)
    requires BoundedPrefixes(env.list) && IsScheduler(env.schedule)
    requires ChildrenExtend(parent, folders)
    ensures WalkChildren(env, FetchAllOf(env), root, parent, folders, acc).Success? <==> ForestOk(env, root, parent, folders)
    ensures WalkChildren(env, FetchAllOf(env), root, parent, folders, acc).Success? ==>
      |WalkChildren(env, FetchAllOf(env), root, parent, folders, acc).value| == |acc| + |ForestKeys(env, parent, folders)| &&
      multiset(WalkChildren(env, FetchAllOf(env), root, parent, folders, acc).value) ==
        multiset(acc) + multiset(Fetched(env, root, ForestKeys(env, parent, folders)))
    decreases MaxKeyLength - |parent|, 0, |folders|
  {
    if folders != [] {
      WalkComplete(env, root, folders[0]);
      match Walk(env, FetchAllOf(env), root, folders[0]) {
        case Failure(_) =>
        case Success(sub) =>
          WalkChildrenComplete(env, root, parent, folders[1..], acc + sub);
          OutcomesAppend(env, root, SubtreeKeys(env, folders[0]), ForestKeys(env, parent, folders[1..]));
      }
    }
  }

  /** Every entry of a successful walk is the content fetched for some leaf key
      of the subtree, with its name computed relative to the original root
      rather than to the level the key was listed at. */
  lemma EntriesRelativeToRoot(env: Env, root: string, path: string)
    requires BoundedPrefixes(env.list) && IsScheduler(env.schedule)
    ensures Walk(env, FetchAllOf(env), root, path).Success? ==>
      forall c :: c in Walk(env, FetchAllOf(env), root, path).value ==>
        exists k :: k in SubtreeKeys(env, path) &&
          FetchKey(env, root, k) == Success(c) && env.rel(root, k.key) == Success(c.name)
  {
    if Walk(env, FetchAllOf(env), root, path).Success? {
      WalkComplete(env, root, path);
      var keys := SubtreeKeys(env, path);
      forall c | c in Walk(env, FetchAllOf(env), root, path).value
        ensures exists k :: k in keys && FetchKey(env, root, k) == Success(c) && env.rel(root, k.key) == Success(c.name)
      {
        assert c in multiset(Fetched(env, root, keys));
        var k := FetchedFrom(env, root, keys, c);
      }
    }
  }

  /** A fetched content comes from one of the keys. */
  lemma {:induction false} FetchedFrom(env: Env, base: string, keys: seq<Key>, c: S3Content) returns (k: Key)
    requires c in Fetched(env, base, keys)
    ensures k in keys && FetchKey(env, base, k) == Success(c)
  {
    assert keys != [];
    OutcomesAppend(env, base, [keys[0]], keys[1..]);
    assert keys == [keys[0]] + keys[1..];
    if FetchKey(env, base, keys[0]) == Success(c) {
      k := keys[0];
    } else {
      assert Outcomes(env, base, [keys[0]]) == [FetchKey(env, base, keys[0])];
      assert c in Fetched(env, base, keys[1..]);
      k := FetchedFrom(env, base, keys[1..], c);
    }
  }

  /** `fetchPath` itself: the recursive walk with a loop over the child
      prefixes that appends to the accumulated contents. */
  method FetchPath(env: Env, root: string, path: string) returns (r: Result<seq<S3Content>, WalkError>)
    requires BoundedPrefixes(env.list) && IsScheduler(env.schedule)
    ensures r == Walk(env, FetchAllOf(env), root, path)
    decreases MaxKeyLength - |path|
  {
    var list := env.list(path);
    if list.Failure? {
      return Failure(ListFailed(path, list.error));
    }
    var keys := list.value.contents;
    var level := FetchAll(env, root, keys, env.schedule(keys));
    assert FetchAllOf(env)(root, keys) == level;
    if level.Failure? {
      return Failure(LevelFailed(path, level.error));
    }
    var contents := level.value;
    var folders := list.value.commonPrefixes;
    for i := 0 to |folders|
      invariant Walk(env, FetchAllOf(env), root, path) == WalkChildren(env, FetchAllOf(env), root, path, folders[i..], contents)
    {
      assert folders[i..][1..] == folders[i + 1..];
      var newContent := FetchPath(env, root, folders[i]);
      if newContent.Failure? {
        return Failure(newContent.error);
      }
      contents := contents + newContent.value;
    }
    assert folders[|folders|..] == [];
    return Success(contents);
  }
}
