/** Values of the executor cache and reference definitions of its five
    operations, as functions of the inputs and the current store. */
module CacheSpec {

  datatype Option<+T> = None | Some(value: T)

  /** A compiled template executor: opaque, compared only by identity. */
  datatype Executor = Executor(id: nat)

  /** A file descriptor: `id` is its identity as a map key, `realPath` the
      canonical path string it reports. Two descriptors may share a path. */
  datatype FileInfo = FileInfo(id: nat, realPath: string)

  function RealPath(info: FileInfo): string
  {
    info.realPath
  }

  /** The store is keyed by arbitrary values: a name string and a descriptor
      are different keys even when the descriptor's path equals the name. */
  datatype Key = Name(name: string) | Info(info: FileInfo)

  /** Errors: those a loader reports, the "not found" error of the name
      search (it records the name it is about) and the "nil value" error. */
  datatype Error = LoaderError(code: nat) | NotFound(key: string) | NilValue

  /** The not-found classification applied to loader errors. */
  predicate IsNotFound(e: Error)
  {
    e.NotFound?
  }

  /** The pair (executor or nil, error or nil) that loaders and every
      lookup operation return. */
  datatype Outcome = Outcome(exec: Option<Executor>, err: Option<Error>)

  /** Stored values are nullable executors; WellFormed below says none is nil. */
  type Store = map<Key, Option<Executor>>

  /** What one operation does: its outcome, the store afterwards, and the
      keys it passed to the loader, in call order. */
  datatype Step = Step(out: Outcome, store: Store, tried: seq<Key>)

  /** Invariant kept by every operation: no stored value is nil, because
      each write is guarded by a nil check. */
  ghost predicate WellFormed(store: Store)
  {
    forall k :: k in store ==> store[k].Some?
  }

  /** Also kept by every operation: every write uses a string key, so a
      store built from an empty one holds no descriptor key. */
  ghost predicate NameKeysOnly(store: Store)
  {
    forall k :: k in store ==> k.Name?
  }

  /** The store holds a non-nil executor under `k`. */
  predicate Hit(store: Store, k: Key)
  {
    k in store && store[k].Some?
  }

  /** Load: the value stored under the name, or nil. */
  function Lookup(store: Store, name: string): Option<Executor>
  {
    if Name(name) in store then store[Name(name)] else None
  }

  /** The single-key memoization shared by LoadOrStore and LoadOrStoreInfo:
      `readKey` is looked up, `loaded` is what the loader returns for
      `call`, and a success is stored under `writeKey`. */
  function Memoize(enable: bool, store: Store, readKey: Key, writeKey: Key,
                   call: Key, loaded: Outcome): Step
  {
    if !enable then Step(loaded, store, [call])
    else if readKey in store then Step(Outcome(store[readKey], None), store, [])
    else if loaded.err.Some? then Step(Outcome(None, loaded.err), store, [call])
    else if loaded.exec.None? then Step(Outcome(None, Some(NilValue)), store, [call])
    else Step(Outcome(loaded.exec, None), store[writeKey := loaded.exec], [call])
  }

  function LoadOrStoreSpec(enable: bool, store: Store, name: string,
                           loader: string -> Outcome): Step
  {
    Memoize(enable, store, Name(name), Name(name), Name(name), loader(name))
  }

  /** Reads with the descriptor itself as key, writes under its real path. */
  function LoadOrStoreInfoSpec(enable: bool, store: Store, info: FileInfo,
                               loader: FileInfo -> Outcome): Step
  {
    Memoize(enable, store, Info(info), Name(RealPath(info)), Info(info), loader(info))
  }

  function Prepend(k: Key, s: Step): Step
  {
    Step(s.out, s.store, [k] + s.tried)
  }

  /** The ordered fallback over candidate names, from candidate `i` on;
      `primary` is the name the final not-found error reports. */
  function NamesFrom(enable: bool, store: Store, cands: seq<string>, i: nat, primary: string,
                     loader: string -> Outcome): Step
    requires i <= |cands|
    decreases |cands| - i
  {
    if i == |cands| then Step(Outcome(None, Some(NotFound(primary))), store, [])
    else
      var c := cands[i];
      if Hit(store, Name(c)) then Step(Outcome(store[Name(c)], None), store, [])
      else
        var o := loader(c);
        if o.err.Some? then
          if IsNotFound(o.err.value) then Prepend(Name(c), NamesFrom(enable, store, cands, i + 1, primary, loader))
          else Step(Outcome(None, o.err), store, [Name(c)])
        else if o.exec.Some? then
          Step(Outcome(o.exec, None), if enable then store[Name(c) := o.exec] else store, [Name(c)])
        else Prepend(Name(c), NamesFrom(enable, store, cands, i + 1, primary, loader))
  }

  function LoadOrStoreNamesSpec(enable: bool, store: Store, name: string,
                                loader: string -> Outcome, names: seq<string>): Step
  {
    NamesFrom(enable, store, [name] + names, 0, name, loader)
  }

  /** The ordered fallback over candidate descriptors, from candidate `i`
      on, keyed by real path. */
  function InfosFrom(enable: bool, store: Store, cands: seq<FileInfo>, i: nat,
                     loader: FileInfo -> Outcome): Step
    requires i <= |cands|
    decreases |cands| - i
  {
    if i == |cands| then Step(Outcome(None, None), store, [])
    else
      var c := cands[i];
      var k := Name(RealPath(c));
      if Hit(store, k) then Step(Outcome(store[k], None), store, [])
      else
        var o := loader(c);
        if o.err.Some? then Step(Outcome(None, o.err), store, [Info(c)])
        else if o.exec.Some? then
          Step(Outcome(o.exec, None), if enable then store[k := o.exec] else store, [Info(c)])
        else Prepend(Info(c), InfosFrom(enable, store, cands, i + 1, loader))
  }

  function LoadOrStoreInfosSpec(enable: bool, store: Store, info: FileInfo,
                                loader: FileInfo -> Outcome, infos: seq<FileInfo>): Step
  {
    InfosFrom(enable, store, [info] + infos, 0, loader)
  }

  lemma AppendAssoc(a: seq<Key>, b: seq<Key>, c: seq<Key>)
    ensures a + (b + c) == (a + b) + c
  {
  }

  /** The loader keys of a list of names or of descriptors, in order. */
  function NameKeys(cs: seq<string>): (ks: seq<Key>)
    ensures |ks| == |cs| && forall j :: 0 <= j < |cs| ==> ks[j] == Name(cs[j])
  {
    seq(|cs|, j requires 0 <= j < |cs| => Name(cs[j]))
  }

  function InfoKeys(cs: seq<FileInfo>): (ks: seq<Key>)
    ensures |ks| == |cs| && forall j :: 0 <= j < |cs| ==> ks[j] == Info(cs[j])
  {
    seq(|cs|, j requires 0 <= j < |cs| => Info(cs[j]))
  }

  /** The name search passes over candidate `c`: no stored executor, and the
      loader reports not-found or returns nil without an error. */
  predicate NameSkipped(store: Store, loader: string -> Outcome, c: string)
  {
    !Hit(store, Name(c)) &&
    var o := loader(c);
    if o.err.Some? then IsNotFound(o.err.value) else o.exec.None?
  }

  /** The descriptor search passes over `i`: no stored executor under its
      real path, and the loader returns nil without an error. */
  predicate InfoSkipped(store: Store, loader: FileInfo -> Outcome, i: FileInfo)
  {
    !Hit(store, Name(RealPath(i))) && loader(i) == Outcome(None, None)
  }
}
