/** Properties of the reference functions in CacheSpec: what each lookup
    returns, when it calls the loader, and what it does to the store. */
module CacheLemmas {
  import opened CacheSpec

  // ---------------------------------------------------------------------
  // LoadOrStore

  /** Disabled: the loader's result is returned verbatim, the loader is
      called once, and the store is neither read nor written. */
  lemma LoadOrStoreDisabled(store: Store, name: string, loader: string -> Outcome)
    ensures var s := LoadOrStoreSpec(false, store, name, loader);
            s.out == loader(name) && s.store == store && s.tried == [Name(name)]
  {
  }

  /** Enabled and present: the stored value is returned, the loader is not
      called and the store is unchanged. */
  lemma LoadOrStoreHit(store: Store, name: string, loader: string -> Outcome)
    requires Name(name) in store
    ensures var s := LoadOrStoreSpec(true, store, name, loader);
            s.out == Outcome(store[Name(name)], None) && s.store == store && s.tried == []
  {
  }

  /** Enabled miss: the loader is called once; an error (the loader's own, or
      "nil value" for a nil result without error) leaves the store unchanged;
      a success adds exactly `name` with the returned executor, which a
      following Load returns. */
  lemma LoadOrStoreMiss(store: Store, name: string, loader: string -> Outcome)
    requires Name(name) !in store
    ensures var s := LoadOrStoreSpec(true, store, name, loader);
            var o := loader(name);
            s.tried == [Name(name)] &&
            (o.err.Some? ==> s.out == Outcome(None, o.err) && s.store == store) &&
            (o.err.None? && o.exec.None? ==> s.out == Outcome(None, Some(NilValue)) && s.store == store) &&
            (o.err.None? && o.exec.Some? ==>
               s.out == o && s.store == store[Name(name) := o.exec] && Lookup(s.store, name) == o.exec)
  {
  }

  /** Once an enabled call has answered without error, the next enabled call
      for the same name, with any loader, returns the same executor without
      calling that loader and leaves the store as it is. */
  lemma LoadOrStoreMemoizes(store: Store, name: string, loader: string -> Outcome, other: string -> Outcome)
    requires WellFormed(store)
    ensures var s := LoadOrStoreSpec(true, store, name, loader);
            var t := LoadOrStoreSpec(true, s.store, name, other);
            s.out.err.None? ==>
              s.out.exec.Some? && t.out == s.out && t.store == s.store && t.tried == []
  {
  }

  /** A failed call never turns an absent name into a present one, and a
      disabled call never does either. */
  lemma LoadOrStoreStoresOnlySuccess(enable: bool, store: Store, name: string, loader: string -> Outcome)
    ensures var s := LoadOrStoreSpec(enable, store, name, loader);
            s.store == store ||
            (enable && Name(name) !in store && s.out.err.None? && s.out.exec.Some? &&
             s.store == store[Name(name) := s.out.exec])
  {
  }

  // ---------------------------------------------------------------------
  // LoadOrStoreInfo

  /** Enabled miss that succeeds: the executor is stored under the real path
      (a following Load of that path returns it), never under the descriptor;
      the loader was called with the descriptor. */
  lemma LoadOrStoreInfoWritesRealPath(store: Store, info: FileInfo, loader: FileInfo -> Outcome)
    requires Info(info) !in store
    requires loader(info).err.None? && loader(info).exec.Some?
    ensures var s := LoadOrStoreInfoSpec(true, store, info, loader);
            s.out == loader(info) && s.tried == [Info(info)] &&
            s.store == store[Name(RealPath(info)) := loader(info).exec] &&
            Lookup(s.store, RealPath(info)) == loader(info).exec &&
            Info(info) !in s.store
  {
  }

  /** Because no operation stores a descriptor key, the enabled descriptor
      lookup never hits in a store built from an empty one: two calls in a
      row with the same descriptor both call the loader. */
  lemma LoadOrStoreInfoAlwaysMisses(store: Store, info: FileInfo, loader: FileInfo -> Outcome, other: FileInfo -> Outcome)
    requires NameKeysOnly(store)
    ensures var s := LoadOrStoreInfoSpec(true, store, info, loader);
            var t := LoadOrStoreInfoSpec(true, s.store, info, other);
            s.tried == [Info(info)] && Info(info) !in s.store && t.tried == [Info(info)]
  {
  }

  /** The descriptor write can replace an executor already stored under the
      real path: stored values are not write-once through this operation. */
  lemma LoadOrStoreInfoOverwrites()
    ensures var info := FileInfo(0, "page.tmpl");
            var store: Store := map[Name("page.tmpl") := Some(Executor(1))];
            var s := LoadOrStoreInfoSpec(true, store, info, _ => Outcome(Some(Executor(2)), None));
            Lookup(store, "page.tmpl") == Some(Executor(1)) &&
            Lookup(s.store, "page.tmpl") == Some(Executor(2))
  {
  }

  // ---------------------------------------------------------------------
  // LoadOrStoreNames

  /** Candidates `i` to `k` that the search passes over only add themselves,
      in order, to the loader calls: what follows is the search from `k`. */
  lemma {:induction false} NamesSkipRange(enable: bool, store: Store, cands: seq<string>, primary: string,
                                          loader: string -> Outcome, i: nat, k: nat)
    requires i <= k <= |cands|
    requires forall j :: i <= j < k ==> NameSkipped(store, loader, cands[j])
    ensures var r := NamesFrom(enable, store, cands, k, primary, loader);
            NamesFrom(enable, store, cands, i, primary, loader)
              == Step(r.out, r.store, NameKeys(cands[i..k]) + r.tried)
    decreases k - i
  {
    if i < k {
      NamesSkipRange(enable, store, cands, primary, loader, i + 1, k);
      var r := NamesFrom(enable, store, cands, k, primary, loader);
      assert NamesFrom(enable, store, cands, i, primary, loader)
          == Prepend(Name(cands[i]), NamesFrom(enable, store, cands, i + 1, primary, loader));
      NameKeysCons(cands, i, k);
      AppendAssoc([Name(cands[i])], NameKeys(cands[i + 1..k]), r.tried);
    } else {
      assert NameKeys(cands[i..k]) == [];
    }
  }

  lemma NameKeysCons(cs: seq<string>, i: nat, k: nat)
    requires i < k <= |cs|
    ensures NameKeys(cs[i..k]) == [Name(cs[i])] + NameKeys(cs[i + 1..k])
  {
    assert NameKeys(cs[i..k]) == [Name(cs[i])] + NameKeys(cs[i + 1..k]);
  }

  /** The search is decided by the first candidate it does not pass over:
      a stored executor is returned whatever the enable flag, without a
      loader call; otherwise the loader is called for it and its non-not-found
      error is returned, or its executor is returned (and stored only when
      enabled). No later candidate is ever given to the loader. */
  lemma NamesDecidedAt(enable: bool, store: Store, cands: seq<string>, primary: string,
                       loader: string -> Outcome, k: nat)
    requires k < |cands|
    requires forall j :: 0 <= j < k ==> NameSkipped(store, loader, cands[j])
    requires !NameSkipped(store, loader, cands[k])
    ensures var s := NamesFrom(enable, store, cands, 0, primary, loader);
            var c := cands[k];
            Hit(store, Name(c)) ==>
              s.out == Outcome(store[Name(c)], None) && s.store == store && s.tried == NameKeys(cands[..k])
    ensures var s := NamesFrom(enable, store, cands, 0, primary, loader);
            var c := cands[k];
            var o := loader(c);
            !Hit(store, Name(c)) && o.err.Some? ==>
              !IsNotFound(o.err.value) && s.out == Outcome(None, o.err) && s.store == store &&
              s.tried == NameKeys(cands[..k + 1])
    ensures var s := NamesFrom(enable, store, cands, 0, primary, loader);
            var c := cands[k];
            var o := loader(c);
            !Hit(store, Name(c)) && o.err.None? ==>
              o.exec.Some? && s.out == o &&
              s.store == (if enable then store[Name(c) := o.exec] else store) &&
              s.tried == NameKeys(cands[..k + 1])
  {
    NamesSkipRange(enable, store, cands, primary, loader, 0, k);
    assert cands[0..k] == cands[..k];
    assert cands[..k + 1] == cands[..k] + [cands[k]];
    assert NameKeys(cands[..k + 1]) == NameKeys(cands[..k]) + [Name(cands[k])];
  }

  /** When every candidate is passed over, each is given to the loader once,
      in order, the store is unchanged and the not-found error names the
      primary name, not the last candidate. */
  lemma NamesExhausted(enable: bool, store: Store, name: string, loader: string -> Outcome, names: seq<string>)
    requires NameSkipped(store, loader, name)
    requires forall j :: 0 <= j < |names| ==> NameSkipped(store, loader, names[j])
    ensures var s := LoadOrStoreNamesSpec(enable, store, name, loader, names);
            s.out == Outcome(None, Some(NotFound(name))) && s.store == store &&
            s.tried == NameKeys([name] + names)
  {
    var cands := [name] + names;
    assert forall j :: 0 <= j < |cands| ==> NameSkipped(store, loader, cands[j]) by {
      forall j | 0 <= j < |cands| ensures NameSkipped(store, loader, cands[j]) {
        if j > 0 { assert cands[j] == names[j - 1]; }
      }
    }
    NamesSkipRange(enable, store, cands, name, loader, 0, |cands|);
    assert cands[0..|cands|] == cands;
  }

  /** The enable flag only decides whether a success is stored: the outcome
      and the loader calls are the same either way, and a disabled search
      leaves the store unchanged. */
  lemma {:induction false} NamesIgnoreEnable(store: Store, cands: seq<string>, i: nat, primary: string,
                                             loader: string -> Outcome)
    requires i <= |cands|
    ensures var on := NamesFrom(true, store, cands, i, primary, loader);
            var off := NamesFrom(false, store, cands, i, primary, loader);
            on.out == off.out && on.tried == off.tried && off.store == store
    decreases |cands| - i
  {
    if i < |cands| {
      NamesIgnoreEnable(store, cands, i + 1, primary, loader);
    }
  }

  /** The search changes the store in at most one key: the last candidate
      given to the loader, which had no stored executor, now maps to the
      executor returned, and only when enabled. */
  lemma {:induction false} NamesStoreChange(enable: bool, store: Store, cands: seq<string>, i: nat, primary: string,
                                            loader: string -> Outcome)
    requires i <= |cands|
    ensures var s := NamesFrom(enable, store, cands, i, primary, loader);
            s.store == store ||
            (enable && |s.tried| > 0 && s.tried[|s.tried| - 1].Name? &&
             !Hit(store, s.tried[|s.tried| - 1]) && s.out.err.None? && s.out.exec.Some? &&
             s.store == store[s.tried[|s.tried| - 1] := s.out.exec])
    decreases |cands| - i
  {
    if i < |cands| && !Hit(store, Name(cands[i])) {
      NamesStoreChange(enable, store, cands, i + 1, primary, loader);
    }
  }

  /** The name search keeps both store invariants. */
  lemma NamesPreserveInvariants(enable: bool, store: Store, name: string, loader: string -> Outcome, names: seq<string>)
    ensures var s := LoadOrStoreNamesSpec(enable, store, name, loader, names);
            (WellFormed(store) ==> WellFormed(s.store)) && (NameKeysOnly(store) ==> NameKeysOnly(s.store))
  {
    NamesStoreChange(enable, store, [name] + names, 0, name, loader);
  }

  // ---------------------------------------------------------------------
  // LoadOrStoreInfos

  /** Descriptors `i` to `k` that the search passes over only add themselves,
      in order, to the loader calls: what follows is the search from `k`. */
  lemma {:induction false} InfosSkipRange(enable: bool, store: Store, cands: seq<FileInfo>,
                                          loader: FileInfo -> Outcome, i: nat, k: nat)
    requires i <= k <= |cands|
    requires forall j :: i <= j < k ==> InfoSkipped(store, loader, cands[j])
    ensures var r := InfosFrom(enable, store, cands, k, loader);
            InfosFrom(enable, store, cands, i, loader) == Step(r.out, r.store, InfoKeys(cands[i..k]) + r.tried)
    decreases k - i
  {
    if i < k {
      InfosSkipRange(enable, store, cands, loader, i + 1, k);
      var r := InfosFrom(enable, store, cands, k, loader);
      assert InfosFrom(enable, store, cands, i, loader)
          == Prepend(Info(cands[i]), InfosFrom(enable, store, cands, i + 1, loader));
      InfoKeysCons(cands, i, k);
      AppendAssoc([Info(cands[i])], InfoKeys(cands[i + 1..k]), r.tried);
    } else {
      assert InfoKeys(cands[i..k]) == [];
    }
  }

  lemma InfoKeysCons(cs: seq<FileInfo>, i: nat, k: nat)
    requires i < k <= |cs|
    ensures InfoKeys(cs[i..k]) == [Info(cs[i])] + InfoKeys(cs[i + 1..k])
  {
    assert InfoKeys(cs[i..k]) == [Info(cs[i])] + InfoKeys(cs[i + 1..k]);
  }

  /** The descriptor search is decided by the first candidate it does not
      pass over: an executor stored under its real path is returned without a
      loader call; otherwise ANY loader error is returned, or the executor is
      returned (and stored under the real path only when enabled). No later
      candidate is given to the loader. */
  lemma InfosDecidedAt(enable: bool, store: Store, cands: seq<FileInfo>, loader: FileInfo -> Outcome, k: nat)
    requires k < |cands|
    requires forall j :: 0 <= j < k ==> InfoSkipped(store, loader, cands[j])
    requires !InfoSkipped(store, loader, cands[k])
    ensures var s := InfosFrom(enable, store, cands, 0, loader);
            var key := Name(RealPath(cands[k]));
            Hit(store, key) ==>
              s.out == Outcome(store[key], None) && s.store == store && s.tried == InfoKeys(cands[..k])
    ensures var s := InfosFrom(enable, store, cands, 0, loader);
            var key := Name(RealPath(cands[k]));
            var o := loader(cands[k]);
            !Hit(store, key) && o.err.Some? ==>
              s.out == Outcome(None, o.err) && s.store == store && s.tried == InfoKeys(cands[..k + 1])
    ensures var s := InfosFrom(enable, store, cands, 0, loader);
            var key := Name(RealPath(cands[k]));
            var o := loader(cands[k]);
            !Hit(store, key) && o.err.None? ==>
              o.exec.Some? && s.out == o &&
              s.store == (if enable then store[key := o.exec] else store) &&
              s.tried == InfoKeys(cands[..k + 1])
  {
    InfosSkipRange(enable, store, cands, loader, 0, k);
    assert cands[0..k] == cands[..k];
    assert cands[..k + 1] == cands[..k] + [cands[k]];
    assert InfoKeys(cands[..k + 1]) == InfoKeys(cands[..k]) + [Info(cands[k])];
  }

  /** When every descriptor is passed over, each is given to the loader once,
      in order, the store is unchanged, and the result is nil with no error. */
  lemma InfosExhausted(enable: bool, store: Store, info: FileInfo, loader: FileInfo -> Outcome, infos: seq<FileInfo>)
    requires InfoSkipped(store, loader, info)
    requires forall j :: 0 <= j < |infos| ==> InfoSkipped(store, loader, infos[j])
    ensures var s := LoadOrStoreInfosSpec(enable, store, info, loader, infos);
            s.out == Outcome(None, None) && s.store == store && s.tried == InfoKeys([info] + infos)
  {
    var cands := [info] + infos;
    assert forall j :: 0 <= j < |cands| ==> InfoSkipped(store, loader, cands[j]) by {
      forall j | 0 <= j < |cands| ensures InfoSkipped(store, loader, cands[j]) {
        if j > 0 { assert cands[j] == infos[j - 1]; }
      }
    }
    InfosSkipRange(enable, store, cands, loader, 0, |cands|);
    assert cands[0..|cands|] == cands;
  }

  /** The descriptor search changes the store in at most one key: the real
      path of the last descriptor given to the loader, which had no stored
      executor, now maps to the executor returned, and only when enabled. */
  lemma {:induction false} InfosStoreChange(enable: bool, store: Store, cands: seq<FileInfo>, i: nat,
                                            loader: FileInfo -> Outcome)
    requires i <= |cands|
    ensures var s := InfosFrom(enable, store, cands, i, loader);
            s.store == store ||
            (enable && |s.tried| > 0 && s.tried[|s.tried| - 1].Info? &&
             var key := Name(RealPath(s.tried[|s.tried| - 1].info));
             !Hit(store, key) && s.out.err.None? && s.out.exec.Some? &&
             s.store == store[key := s.out.exec])
    decreases |cands| - i
  {
    if i < |cands| && !Hit(store, Name(RealPath(cands[i]))) {
      InfosStoreChange(enable, store, cands, i + 1, loader);
    }
  }

  /** The descriptor search keeps both store invariants. */
  lemma InfosPreserveInvariants(enable: bool, store: Store, info: FileInfo, loader: FileInfo -> Outcome, infos: seq<FileInfo>)
    ensures var s := LoadOrStoreInfosSpec(enable, store, info, loader, infos);
            (WellFormed(store) ==> WellFormed(s.store)) && (NameKeysOnly(store) ==> NameKeysOnly(s.store))
  {
    InfosStoreChange(enable, store, [info] + infos, 0, loader);
  }

  // ---------------------------------------------------------------------
  // Scenarios

  /** A loader for the scenarios: "c" loads, every other name is not found. */
  function FallbackLoader(n: string): Outcome
  {
    if n == "c" then Outcome(Some(Executor(3)), None) else Outcome(None, Some(NotFound(n)))
  }

  /** Fallback: "a" and "b" are not found, "c" loads. The result is c's
      executor, which is stored under "c" only; "a" and "b" stay absent. */
  lemma FallbackScenario()
    ensures var s := LoadOrStoreNamesSpec(true, map[], "a", FallbackLoader, ["b", "c"]);
            s.out == Outcome(Some(Executor(3)), None) &&
            s.store == map[Name("c") := Some(Executor(3))] &&
            s.tried == [Name("a"), Name("b"), Name("c")]
  {
    var cands := ["a", "b", "c"];
    assert ["a"] + ["b", "c"] == cands;
    var last := NamesFrom(true, map[], cands, 2, "a", FallbackLoader);
    assert last == Step(Outcome(Some(Executor(3)), None), map[Name("c") := Some(Executor(3))], [Name("c")]);
    assert NamesFrom(true, map[], cands, 1, "a", FallbackLoader) == Prepend(Name("b"), last);
    assert NamesFrom(true, map[], cands, 0, "a", FallbackLoader)
        == Prepend(Name("a"), NamesFrom(true, map[], cands, 1, "a", FallbackLoader));
  }

  /** Exhaustion: "a" and "b" are both not found; the error names "a". */
  lemma PrimaryNameScenario()
    ensures var s := LoadOrStoreNamesSpec(true, map[], "a", FallbackLoader, ["b"]);
            s.out == Outcome(None, Some(NotFound("a"))) && s.store == map[] &&
            s.tried == [Name("a"), Name("b")]
  {
    NamesExhausted(true, map[], "a", FallbackLoader, ["b"]);
    assert NameKeys(["a"] + ["b"]) == [Name("a"), Name("b")];
  }

  /** An error that is not "not found" stops the search at "a": "b" is never
      given to the loader. */
  lemma AbortScenario()
    ensures var loader := (n: string) => if n == "a" then Outcome(None, Some(LoaderError(1)))
                                         else Outcome(Some(Executor(2)), None);
            var s := LoadOrStoreNamesSpec(true, map[], "a", loader, ["b"]);
            s.out == Outcome(None, Some(LoaderError(1))) && s.store == map[] && s.tried == [Name("a")]
  {
  }
}
