/** A caller of the cache: what the class contracts, together with the
    lemmas about the reference functions, let a client conclude. */
module CacheClient {
  import opened CacheSpec
  import opened Cache
  import CacheLemmas

  /** An enabled cache falls back from "a" and "b" to "c", remembers "c" and
      answers the next lookup of "c" without calling the loader again. */
  method FallbackClient()
  {
    var cache := new ExecutorCache();
    cache.Enable := true;
    var v, err := cache.LoadOrStoreNames("a", CacheLemmas.FallbackLoader, ["b", "c"]);
    CacheLemmas.FallbackScenario();
    assert v == Some(Executor(3)) && err == None;
    assert cache.Log == [Name("a"), Name("b"), Name("c")];
    var c := cache.Load("c");
    var a := cache.Load("a");
    assert c == Some(Executor(3)) && a == None;
    var again, err2 := cache.LoadOrStore("c", _ => Outcome(None, Some(LoaderError(7))));
    assert again == Some(Executor(3)) && err2 == None;
    assert cache.Log == [Name("a"), Name("b"), Name("c")];
  }
}
