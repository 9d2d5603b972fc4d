/**
 * What `GetSecrets` promises, proved about its reference definition `Check.MergeFrom`
 * (which `Check.GetSecrets` and `Check.MergeSecrets` are proved to follow).
 */
module CheckProperties {
  import opened Results
  import opened VaultApi
  import opened Check

  /** The flattened map of one secret holds exactly its string values, each under
      `prefix-key`, unchanged. */
  lemma FlattenContents(prefix: string, data: map<string, Value>)
    requires AllStrings(data)
    ensures forall k :: k in data ==>
      FlatKey(prefix, k) in Flatten(prefix, data, data.Keys) &&
      Flatten(prefix, data, data.Keys)[FlatKey(prefix, k)] == data[k].s
    ensures forall fk :: fk in Flatten(prefix, data, data.Keys) ==>
      exists k :: k in data && fk == FlatKey(prefix, k)
  {
    FlatKeyInjective(prefix);
  }

  /** Flattening is not injective: a dash in a prefix or a key makes two different
      (prefix, key) pairs collide. */
  lemma FlatKeyCollides()
    ensures ("a-b", "c") != ("a", "b-c") && FlatKey("a-b", "c") == FlatKey("a", "b-c")
  {
    assert FlatKey("a-b", "c") == "a-b-c" == FlatKey("a", "b-c");
  }

  /** When no prefix contains a dash, flattened keys do identify their (prefix, key). */
  lemma FlatKeyUniqueWithoutDash(p1: string, k1: string, p2: string, k2: string)
    requires '-' !in p1 && '-' !in p2
    requires FlatKey(p1, k1) == FlatKey(p2, k2)
    ensures p1 == p2 && k1 == k2
  {
    if |p1| != |p2| {
      assert false;
    }
  }

  /** Different missing paths give different messages, so the message identifies the path. */
  lemma NotFoundMessageInjective(p1: string, p2: string)
    requires NotFoundMessage(p1) == NotFoundMessage(p2)
    ensures p1 == p2
  {
  }


  /** What every entry writes, later entries winning: the merged map of a run that
      reads every entry without failing. */
  function Contribution(entries: seq<Entry>, store: string -> ReadResult): map<string, string>
    decreases |entries|
  {
    if entries == [] then map[] else Part(entries[0], store) + Contribution(entries[1..], store)
  }

  /** The read calls for every entry, in order. */
  function PathReads(entries: seq<Entry>): seq<Call>
    decreases |entries|
  {
    if entries == [] then [] else [ReadCall(entries[0].1)] + PathReads(entries[1..])
  }

  /** Entry `i` writes the flattened key `fk`. */
  ghost predicate Writes(entries: seq<Entry>, store: string -> ReadResult, i: int, fk: string) {
    0 <= i < |entries| && fk in Part(entries[i], store)
  }

  /** Entry `i` is the last entry that writes `fk`. */
  ghost predicate LastWriter(entries: seq<Entry>, store: string -> ReadResult, i: int, fk: string) {
    Writes(entries, store, i, fk) && forall j :: i < j < |entries| ==> !Writes(entries, store, j, fk)
  }

  lemma MapUnionAssoc<K, V>(a: map<K, V>, b: map<K, V>, c: map<K, V>)
    ensures (a + b) + c == a + (b + c)
  {
  }

  /** The merge ends with `Ok` exactly when every read can be merged; then the map is the
      whole contribution added to the map it started from, and every entry was read once. */
  lemma {:induction false} MergeSucceedsIff(entries: seq<Entry>, store: string -> ReadResult, acc: map<string, string>)
    ensures MergeFrom(entries, store, acc).Ok? <==> forall j :: 0 <= j < |entries| ==> Mergeable(store(entries[j].1))
    ensures MergeFrom(entries, store, acc).Ok? ==>
      MergeFrom(entries, store, acc).secrets == acc + Contribution(entries, store) &&
      ReadsFrom(entries, store) == PathReads(entries)
    decreases |entries|
  {
    if entries != [] {
      var (prefix, path) := entries[0];
      var tail := entries[1..];
      if Mergeable(store(path)) {
        var next := acc + Part(entries[0], store);
        MergeSucceedsIff(tail, store, next);
        MapUnionAssoc(acc, Part(entries[0], store), Contribution(tail, store));
        assert forall j :: 1 <= j < |entries| ==> entries[j] == tail[j - 1];
        if MergeFrom(tail, store, next).Ok? {
          assert forall j :: 0 <= j < |entries| ==> Mergeable(store(entries[j].1)) by {
            forall j | 0 <= j < |entries| ensures Mergeable(store(entries[j].1)) {
              if j > 0 { assert tail[j - 1] == entries[j]; }
            }
          }
        } else {
          var j :| 0 <= j < |tail| && !Mergeable(store(tail[j].1));
          assert entries[j + 1] == tail[j];
        }
      }
    }
  }

  /** Fail-fast: when entries 0..i-1 can be merged and entry i cannot, the merge stops at
      entry i with that entry's error, keeps only what entries 0..i-1 wrote, and reads no
      entry after i. */
  lemma {:induction false} FailFast(entries: seq<Entry>, store: string -> ReadResult, acc: map<string, string>, i: nat)
    requires i < |entries|
    requires forall j :: 0 <= j < i ==> Mergeable(store(entries[j].1))
    requires !Mergeable(store(entries[i].1))
    ensures var r, path, partial := store(entries[i].1), entries[i].1, acc + Contribution(entries[..i], store);
      && (r.ReadError? ==> MergeFrom(entries, store, acc) == Err(partial, ClientError(r.msg)))
      && (r.NoSecret? ==> MergeFrom(entries, store, acc) == Err(partial, NotFound(path)))
      && (r.Found? ==> MergeFrom(entries, store, acc) == Panicked(CastFailed(path)))
    ensures ReadsFrom(entries, store) == PathReads(entries[..i + 1])
    decreases i
  {
    if i == 0 {
      assert entries[..1] == [entries[0]];
      assert entries[..0] == [];
    } else {
      var tail := entries[1..];
      var next := acc + Part(entries[0], store);
      assert Mergeable(store(entries[0].1));
      assert forall j :: 0 <= j < i - 1 ==> tail[j] == entries[j + 1];
      FailFast(tail, store, next, i - 1);
      assert entries[..i][1..] == tail[..i - 1];
      assert entries[..i + 1][1..] == tail[..i];
      assert entries[..i][0] == entries[0] && entries[..i + 1][0] == entries[0];
      MapUnionAssoc(acc, Part(entries[0], store), Contribution(tail[..i - 1], store));
    }
  }

  /** Entry `i` is the first entry whose read cannot be merged. */
  ghost predicate FirstFailure(entries: seq<Entry>, store: string -> ReadResult, i: int) {
    && 0 <= i < |entries|
    && (forall j :: 0 <= j < i ==> Mergeable(store(entries[j].1)))
    && !Mergeable(store(entries[i].1))
  }

  /** The error `e` is what the read `r` of `path` reports: the library's error, with its
      message unchanged, or the not-found error, whose message names the path. */
  predicate Reports(e: FetchError, r: ReadResult, path: string) {
    || (r.ReadError? && e == ClientError(r.msg) && e.Message() == r.msg)
    || (r.NoSecret? && e == NotFound(path) && e.Message() == NotFoundMessage(path))
  }

  /** Every error the merge returns comes from the first entry whose read cannot be merged,
      and is what that read reports; the caller can tell a missing path from a failed read
      by the kind of error. */
  lemma {:induction false} ErrorNamesEntry(entries: seq<Entry>, store: string -> ReadResult, acc: map<string, string>)
    requires MergeFrom(entries, store, acc).Err?
    ensures exists i ::
      FirstFailure(entries, store, i) && Reports(MergeFrom(entries, store, acc).error, store(entries[i].1), entries[i].1)
    decreases |entries|
  {
    var e := MergeFrom(entries, store, acc).error;
    if !Mergeable(store(entries[0].1)) {
      assert FirstFailure(entries, store, 0) && Reports(e, store(entries[0].1), entries[0].1);
    } else {
      var tail := entries[1..];
      assert MergeFrom(entries, store, acc) == MergeFrom(tail, store, acc + Part(entries[0], store));
      ErrorNamesEntry(tail, store, acc + Part(entries[0], store));
      var i :| FirstFailure(tail, store, i) && Reports(e, store(tail[i].1), tail[i].1);
      assert tail[i] == entries[i + 1];
      assert forall j :: 0 < j < i + 1 ==> tail[j - 1] == entries[j];
      assert FirstFailure(entries, store, i + 1);
    }
  }

  /** Warnings never matter: two stores that differ only in the warnings they attach give
      the same outcome and the same reads. */
  lemma {:induction false} WarningsIgnored(entries: seq<Entry>, s1: string -> ReadResult, s2: string -> ReadResult, acc: map<string, string>)
    requires forall path :: WithoutWarnings(s1(path)) == WithoutWarnings(s2(path))
    ensures MergeFrom(entries, s1, acc) == MergeFrom(entries, s2, acc)
    ensures ReadsFrom(entries, s1) == ReadsFrom(entries, s2)
    decreases |entries|
  {
    if entries != [] {
      var path := entries[0].1;
      assert WithoutWarnings(s1(path)) == WithoutWarnings(s2(path));
      var next := acc + Part(entries[0], s1);
      WarningsIgnored(entries[1..], s1, s2, acc + Part(entries[0], s1));
    }
  }

  function WithoutWarnings(r: ReadResult): ReadResult {
    match r
    case Found(data, _) => Found(data, [])
    case _ => r
  }

  /** A flattened key is in the contribution exactly when some entry writes it. */
  lemma {:induction false} ContributionKeys(entries: seq<Entry>, store: string -> ReadResult, fk: string)
    ensures fk in Contribution(entries, store) <==> exists i :: Writes(entries, store, i, fk)
    decreases |entries|
  {
    if entries != [] {
      var tail := entries[1..];
      ContributionKeys(tail, store, fk);
      if fk in Contribution(tail, store) {
        var i :| Writes(tail, store, i, fk);
        assert Writes(entries, store, i + 1, fk);
      } else if fk !in Part(entries[0], store) {
        if i :| Writes(entries, store, i, fk) {
          assert i > 0 && Writes(tail, store, i - 1, fk);
        }
      } else {
        assert Writes(entries, store, 0, fk);
      }
    }
  }

  /** Last write wins: the value under `fk` is the one the last entry writing `fk` wrote;
      earlier writes to the same key are overwritten. */
  lemma {:induction false} LastWriteWins(entries: seq<Entry>, store: string -> ReadResult, i: int, fk: string)
    requires LastWriter(entries, store, i, fk)
    ensures fk in Contribution(entries, store)
    ensures Contribution(entries, store)[fk] == Part(entries[i], store)[fk]
    decreases |entries|
  {
    var tail := entries[1..];
    if i == 0 {
      ContributionKeys(tail, store, fk);
      if j :| Writes(tail, store, j, fk) {
        assert Writes(entries, store, j + 1, fk);
      }
    } else {
      assert LastWriter(tail, store, i - 1, fk) by {
        forall j | i - 1 < j < |tail| ensures !Writes(tail, store, j, fk) {
          assert !Writes(entries, store, j + 1, fk);
        }
      }
      LastWriteWins(tail, store, i - 1, fk);
    }
  }

  /** Every key of the contribution has a last writer, and holds what that entry wrote. */
  lemma {:induction false} ContributionProvenance(entries: seq<Entry>, store: string -> ReadResult, fk: string)
    requires fk in Contribution(entries, store)
    ensures exists i :: LastWriter(entries, store, i, fk) && Contribution(entries, store)[fk] == Part(entries[i], store)[fk]
    decreases |entries|
  {
    ContributionKeys(entries, store, fk);
    var i :| Writes(entries, store, i, fk);
    LastWriterExists(entries, store, i, fk);
    var last :| LastWriter(entries, store, last, fk);
    LastWriteWins(entries, store, last, fk);
  }

  /** A key that some entry writes has a last writer. */
  lemma {:induction false} LastWriterExists(entries: seq<Entry>, store: string -> ReadResult, i: int, fk: string)
    requires Writes(entries, store, i, fk)
    ensures exists last :: LastWriter(entries, store, last, fk)
    decreases |entries| - i
  {
    if !LastWriter(entries, store, i, fk) {
      var j :| i < j < |entries| && Writes(entries, store, j, fk);
      LastWriterExists(entries, store, j, fk);
    }
  }

  /** Entry `i`'s read found a secret with key `k`. */
  ghost predicate Produces(entries: seq<Entry>, store: string -> ReadResult, i: int, k: string) {
    0 <= i < |entries| && store(entries[i].1).Found? && k in store(entries[i].1).data
  }

  /** What a successful merge returns: every path held a secret of strings and was read
      once, in order; the keys are exactly the `prefix-key` of the store's keys; and each
      key holds the store's string for the last entry that produces that key. */
  lemma MergedSecrets(entries: seq<Entry>, store: string -> ReadResult)
    requires MergeFrom(entries, store, map[]).Ok?
    ensures forall i :: 0 <= i < |entries| ==> Mergeable(store(entries[i].1))
    ensures ReadsFrom(entries, store) == PathReads(entries)
    ensures var m := MergeFrom(entries, store, map[]).secrets;
      && (forall i, k :: Produces(entries, store, i, k) ==> FlatKey(entries[i].0, k) in m)
      && (forall fk :: fk in m ==> exists i, k :: Produces(entries, store, i, k) && fk == FlatKey(entries[i].0, k))
      && (forall i, k ::
            (Produces(entries, store, i, k) &&
             forall j, k' :: i < j && Produces(entries, store, j, k') ==> FlatKey(entries[j].0, k') != FlatKey(entries[i].0, k))
            ==> FlatKey(entries[i].0, k) in m && store(entries[i].1).data[k] == Str(m[FlatKey(entries[i].0, k)]))
  {
    MergeSucceedsIff(entries, store, map[]);
    var m := MergeFrom(entries, store, map[]).secrets;
    assert m == Contribution(entries, store);
    forall i, k | Produces(entries, store, i, k) ensures FlatKey(entries[i].0, k) in m {
      FlattenContents(entries[i].0, store(entries[i].1).data);
      ContributionKeys(entries, store, FlatKey(entries[i].0, k));
      assert Writes(entries, store, i, FlatKey(entries[i].0, k));
    }
    forall fk | fk in m ensures exists i, k :: Produces(entries, store, i, k) && fk == FlatKey(entries[i].0, k) {
      ContributionKeys(entries, store, fk);
      var i :| Writes(entries, store, i, fk);
      FlattenContents(entries[i].0, store(entries[i].1).data);
      var k :| k in store(entries[i].1).data && fk == FlatKey(entries[i].0, k);
      assert Produces(entries, store, i, k);
    }
    forall i, k | Produces(entries, store, i, k) &&
        (forall j, k' :: i < j && Produces(entries, store, j, k') ==> FlatKey(entries[j].0, k') != FlatKey(entries[i].0, k))
      ensures FlatKey(entries[i].0, k) in m && store(entries[i].1).data[k] == Str(m[FlatKey(entries[i].0, k)])
    {
      var fk := FlatKey(entries[i].0, k);
      FlattenContents(entries[i].0, store(entries[i].1).data);
      assert forall j :: i < j < |entries| ==> !Writes(entries, store, j, fk);
      LastWriteWins(entries, store, i, fk);
    }
  }

  lemma FlattenNone(prefix: string, data: map<string, Value>)
    ensures Flatten(prefix, data, {}) == map[]
  {
    assert FlatKeys(prefix, data, {}) == {};
  }

  /** A secret with one string value. */
  lemma FlattenSingle(prefix: string, k: string, v: string)
    ensures var data := map[k := Str(v)]; Flatten(prefix, data, data.Keys) == map[FlatKey(prefix, k) := v]
  {
    var data := map[k := Str(v)];
    FlattenNone(prefix, data);
    FlattenAdd(prefix, data, {}, k);
    assert data.Keys == {} + {k};
  }

  /** A secret with two string values. */
  lemma FlattenPair(prefix: string, k1: string, v1: string, k2: string, v2: string)
    requires k1 != k2
    ensures var data := map[k1 := Str(v1), k2 := Str(v2)];
      Flatten(prefix, data, data.Keys) == map[FlatKey(prefix, k1) := v1, FlatKey(prefix, k2) := v2]
  {
    var data := map[k1 := Str(v1), k2 := Str(v2)];
    FlattenNone(prefix, data);
    FlattenAdd(prefix, data, {}, k1);
    FlattenAdd(prefix, data, {k1}, k2);
    assert data.Keys == {} + {k1} + {k2};
  }

  /** Two entries whose reads can be merged. */
  lemma MergeTwo(e1: Entry, e2: Entry, store: string -> ReadResult)
    requires Mergeable(store(e1.1)) && Mergeable(store(e2.1))
    ensures MergeFrom([e1, e2], store, map[]) == Ok(Part(e1, store) + Part(e2, store))
  {
    var entries := [e1, e2];
    var p1, p2 := Part(e1, store), Part(e2, store);
    assert entries[0] == e1 && entries[1..] == [e2] && [e2][0] == e2 && [e2][1..] == [];
    assert MergeFrom(entries, store, map[]) == MergeFrom([e2], store, map[] + p1);
    assert map[] + p1 == p1;
    assert MergeFrom([e2], store, p1) == MergeFrom([], store, p1 + p2);
  }

  /** The flattening example: prefixes "db" and "api" over two paths of any store that
      holds these two secrets. */
  lemma FlattenExample(store: string -> ReadResult)
    requires store("secret/data/db") == Found(map["user" := Str("u1"), "pass" := Str("p1")], [])
    requires store("secret/data/api") == Found(map["token" := Str("t1")], [])
    ensures MergeFrom([("db", "secret/data/db"), ("api", "secret/data/api")], store, map[]) ==
      Ok(map["db-user" := "u1", "db-pass" := "p1", "api-token" := "t1"])
  {
    var db, api := ("db", "secret/data/db"), ("api", "secret/data/api");
    var dbSecrets, apiSecrets := map["db-user" := "u1", "db-pass" := "p1"], map["api-token" := "t1"];
    assert Mergeable(store(db.1)) && Part(db, store) == dbSecrets by {
      FlattenPair("db", "user", "u1", "pass", "p1");
      assert FlatKey("db", "user") == "db-user" && FlatKey("db", "pass") == "db-pass";
    }
    assert Mergeable(store(api.1)) && Part(api, store) == apiSecrets by {
      FlattenSingle("api", "token", "t1");
      assert FlatKey("api", "token") == "api-token";
    }
    MergeTwo(db, api, store);
    assert dbSecrets + apiSecrets == map["db-user" := "u1", "db-pass" := "p1", "api-token" := "t1"];
  }

  /** The collision caveat: "a-b" + "c" and "a" + "b-c" flatten to the same key, and the
      entry read later overwrites the earlier one. */
  lemma CollisionExample(store: string -> ReadResult)
    requires store("p1") == Found(map["c" := Str("x")], [])
    requires store("p2") == Found(map["b-c" := Str("y")], [])
    ensures MergeFrom([("a-b", "p1"), ("a", "p2")], store, map[]) == Ok(map["a-b-c" := "y"])
  {
    var first, second := ("a-b", "p1"), ("a", "p2");
    assert Mergeable(store(first.1)) && Part(first, store) == map["a-b-c" := "x"] by {
      FlattenSingle("a-b", "c", "x");
      assert FlatKey("a-b", "c") == "a-b-c";
    }
    assert Mergeable(store(second.1)) && Part(second, store) == map["a-b-c" := "y"] by {
      FlattenSingle("a", "b-c", "y");
      assert FlatKey("a", "b-c") == "a-b-c";
    }
    MergeTwo(first, second, store);
    assert map["a-b-c" := "x"] + map["a-b-c" := "y"] == map["a-b-c" := "y"];
  }

  /** Overwrite: two paths that both hold key "y" under prefix "x"; the value read last is
      the one kept. The entries repeat a prefix, which only the sequence of entries allows:
      a Go map holds each prefix once, so there the overwrite arises only through a dash,
      as in `CollisionExample`. */
  lemma OverwriteExample(store: string -> ReadResult)
    requires store("p1") == Found(map["y" := Str("old")], [])
    requires store("p2") == Found(map["y" := Str("new")], [])
    ensures MergeFrom([("x", "p1"), ("x", "p2")], store, map[]) == Ok(map["x-y" := "new"])
  {
    var first, second := ("x", "p1"), ("x", "p2");
    assert Mergeable(store(first.1)) && Part(first, store) == map["x-y" := "old"] by {
      FlattenSingle("x", "y", "old");
      assert FlatKey("x", "y") == "x-y";
    }
    assert Mergeable(store(second.1)) && Part(second, store) == map["x-y" := "new"] by {
      FlattenSingle("x", "y", "new");
    }
    MergeTwo(first, second, store);
    assert map["x-y" := "old"] + map["x-y" := "new"] == map["x-y" := "new"];
  }

  /** Fail-fast: when the first path holds no secret, the merge reports that path and the
      second path is never read. */
  lemma FailFastExample(store: string -> ReadResult)
    requires store("missing") == NoSecret
    ensures MergeFrom([("a", "missing"), ("b", "present")], store, map[]) == Err(map[], NotFound("missing"))
    ensures ReadsFrom([("a", "missing"), ("b", "present")], store) == [ReadCall("missing")]
  {
    FailFast([("a", "missing"), ("b", "present")], store, map[], 0);
    assert [("a", "missing"), ("b", "present")][..1] == [("a", "missing")];
    assert Contribution([], store) == map[];
  }
}
