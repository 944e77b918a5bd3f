/** The executor cache itself: an enable flag and a mutable store, with the
    five lookup operations. Each operation is proved against its reference
    function in CacheSpec; the properties of those functions are in
    CacheLemmas. */
module Cache {
  import opened CacheSpec

  class ExecutorCache {
    /** When false, the single-key operations bypass the store entirely. */
    var Enable: bool
    var data: Store
    /** Every key passed to a loader by this cache, in call order. */
    ghost var Log: seq<Key>

    ghost predicate Valid()
      reads this
    {
      WellFormed(data)
    }

    constructor ()
      ensures Valid()
      ensures !Enable && data == map[] && Log == []
    {
      Enable := false;
      data := map[];
      Log := [];
    }

    /** The executor stored under `name`, or nil; the loader is never called. */
    method Load(name: string) returns (r: Option<Executor>)
      ensures Name(name) in data ==> r == data[Name(name)]
      ensures Name(name) !in data ==> r == None
    {
      if Name(name) in data {
        r := data[Name(name)];
      } else {
        r := None;
      }
    }

    method LoadOrStore(name: string, loader: string -> Outcome) returns (v: Option<Executor>, err: Option<Error>)
      requires Valid()
      modifies this
      ensures Valid() && Enable == old(Enable)
      ensures var s := LoadOrStoreSpec(old(Enable), old(data), name, loader);
              Outcome(v, err) == s.out && data == s.store && Log == old(Log) + s.tried
    {
      if Enable {
        if Name(name) !in data {
          var o := loader(name);
          Log := Log + [Name(name)];
          if o.err.Some? {
            return None, o.err;
          }
          if o.exec.None? {
            return None, Some(NilValue);
          }
          data := data[Name(name) := o.exec];
          return o.exec, None;
        }
        return data[Name(name)], None;
      }
      var o := loader(name);
      Log := Log + [Name(name)];
      return o.exec, o.err;
    }

    /** Looks the descriptor itself up, but stores under its real path. */
    method LoadOrStoreInfo(info: FileInfo, loader: FileInfo -> Outcome) returns (v: Option<Executor>, err: Option<Error>)
      requires Valid()
      modifies this
      ensures Valid() && Enable == old(Enable)
      ensures var s := LoadOrStoreInfoSpec(old(Enable), old(data), info, loader);
              Outcome(v, err) == s.out && data == s.store && Log == old(Log) + s.tried
    {
      if Enable {
        if Info(info) !in data {
          var o := loader(info);
          Log := Log + [Info(info)];
          if o.err.Some? {
            return None, o.err;
          }
          if o.exec.None? {
            return None, Some(NilValue);
          }
          data := data[Name(RealPath(info)) := o.exec];
          return o.exec, None;
        }
        return data[Info(info)], None;
      }
      var o := loader(info);
      Log := Log + [Info(info)];
      return o.exec, o.err;
    }

    method LoadOrStoreNames(name: string, loader: string -> Outcome, names: seq<string>)
      returns (v: Option<Executor>, err: Option<Error>)
      requires Valid()
      modifies this
      ensures Valid() && Enable == old(Enable)
      ensures var s := LoadOrStoreNamesSpec(old(Enable), old(data), name, loader, names);
              Outcome(v, err) == s.out && data == s.store && Log == old(Log) + s.tried
    {
      var cands := [name] + names;
      ghost var full := LoadOrStoreNamesSpec(Enable, data, name, loader, names);
      ghost var tried: seq<Key> := [];
      var i := 0;
      while i < |cands|
        invariant 0 <= i <= |cands|
        invariant data == old(data) && Enable == old(Enable)
        invariant Log == old(Log) + tried
        invariant var rest := NamesFrom(Enable, data, cands, i, name, loader);
                  full == Step(rest.out, rest.store, tried + rest.tried)
      {
        var c := cands[i];
        ghost var rest := NamesFrom(Enable, data, cands, i, name, loader);
        if Name(c) in data && data[Name(c)].Some? {
          assert rest.out == Outcome(data[Name(c)], None) && rest.store == data && rest.tried == [];
          return data[Name(c)], None;
        }
        var o := loader(c);
        AppendAssoc(old(Log), tried, [Name(c)]);
        Log := Log + [Name(c)];
        AppendAssoc(tried, [Name(c)], NamesFrom(Enable, data, cands, i + 1, name, loader).tried);
        tried := tried + [Name(c)];
        if o.err.Some? {
          if IsNotFound(o.err.value) {
            i := i + 1;
            continue;
          }
          assert rest.out == Outcome(None, o.err) && rest.store == data && rest.tried == [Name(c)];
          return None, o.err;
        }
        if o.exec.Some? {
          assert rest.out == o && rest.tried == [Name(c)];
          if Enable {
            assert rest.store == data[Name(c) := o.exec];
            data := data[Name(c) := o.exec];
          }
          return o.exec, None;
        }
        i := i + 1;
      }
      return None, Some(NotFound(name));
    }

    method LoadOrStoreInfos(info: FileInfo, loader: FileInfo -> Outcome, infos: seq<FileInfo>)
      returns (v: Option<Executor>, err: Option<Error>)
      requires Valid()
      modifies this
      ensures Valid() && Enable == old(Enable)
      ensures var s := LoadOrStoreInfosSpec(old(Enable), old(data), info, loader, infos);
              Outcome(v, err) == s.out && data == s.store && Log == old(Log) + s.tried
    {
      var cands := [info] + infos;
      ghost var full := LoadOrStoreInfosSpec(Enable, data, info, loader, infos);
      ghost var tried: seq<Key> := [];
      var i := 0;
      while i < |cands|
        invariant 0 <= i <= |cands|
        invariant data == old(data) && Enable == old(Enable)
        invariant Log == old(Log) + tried
        invariant var rest := InfosFrom(Enable, data, cands, i, loader);
                  full == Step(rest.out, rest.store, tried + rest.tried)
      {
        var c := cands[i];
        var k := Name(RealPath(c));
        ghost var rest := InfosFrom(Enable, data, cands, i, loader);
        if k in data && data[k].Some? {
          assert rest.out == Outcome(data[k], None) && rest.store == data && rest.tried == [];
          return data[k], None;
        }
        var o := loader(c);
        AppendAssoc(old(Log), tried, [Info(c)]);
        Log := Log + [Info(c)];
        AppendAssoc(tried, [Info(c)], InfosFrom(Enable, data, cands, i + 1, loader).tried);
        tried := tried + [Info(c)];
        if o.err.Some? {
          assert rest.out == Outcome(None, o.err) && rest.store == data && rest.tried == [Info(c)];
          return None, o.err;
        }
        if o.exec.Some? {
          assert rest.out == o && rest.tried == [Info(c)];
          if Enable {
            assert rest.store == data[k := o.exec];
            data := data[k := o.exec];
          }
          return o.exec, None;
        }
        i := i + 1;
      }
      return None, None;
    }
  }
}
