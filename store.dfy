/** The collaborators of the walk: the object store, the timestamp parser, the
    relative-path computation and the scheduler, all as oracles. */
module Store {
  import opened Wrappers
  import opened Content

  /** A leaf key of a listing, with the store's textual last-modified stamp. */
  datatype Key = Key(key: string, lastModified: string)

  /** One page of a delimited listing: leaf keys and child prefixes, in the
      store's order. */
  datatype Listing = Listing(contents: seq<Key>, commonPrefixes: seq<string>)

  /** The longest key the store accepts. */
  const MaxKeyLength: nat := 1024

  /** The outside world seen by the core.
      - `list(path)`: the delimited listing of `path` (one page), or the store's error;
      - `get(key)`: the payload of `key`, or the store's error;
      - `parseTime(s)`: an RFC 3339 timestamp, or the parser's error;
      - `rel(base, target)`: the path of `target` relative to `base`, or the error;
      - `schedule(keys)`: the order in which the concurrent fetch tasks of one
        level finish. */
  datatype Env = Env(
    list: string -> Result<Listing, string>,
    get: string -> Result<seq<byte>, string>,
    parseTime: string -> Result<Time, string>,
    rel: (string, string) -> Result<string, string>,
    schedule: seq<Key> -> seq<Key>)

  /** Every child prefix properly extends its parent and is a valid key length. */
  predicate ChildrenExtend(parent: string, folders: seq<string>)
  {
    forall f :: f in folders ==> parent < f && |f| <= MaxKeyLength
  }

  /** The store's delimited listings only ever descend: this is what makes the
      recursive walk finite. */
  ghost predicate BoundedPrefixes(list: string -> Result<Listing, string>)
  {
    forall p :: list(p).Success? ==> ChildrenExtend(p, list(p).value.commonPrefixes)
  }

  /** Every task launched finishes exactly once: the completion order is a
      permutation of the launch order. */
  ghost predicate IsScheduler(schedule: seq<Key> -> seq<Key>)
  {
    forall ks :: multiset(schedule(ks)) == multiset(ks)
  }
}
