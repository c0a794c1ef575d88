/** An object store with prefixed keys over a flat one, and the orphan sweep that runs on it. */
module PrefixedStore {
  import opened Options

  type Content = int

  type Objects = map<string, Content>

  predicate HasPrefix(key: string, prefix: string) {
    prefix <= key
  }

  /** NewPrefixedStorageProvider: an empty prefix wraps nothing, any other ends with a slash. */
  function EffectivePrefix(prefix: string): string {
    if prefix == "" || prefix[|prefix| - 1] == '/' then prefix else prefix + "/"
  }

  /** At most one slash is added, to end a prefix with, and none to one that ends with it. */
  lemma PrefixEnds(prefix: string)
    ensures var p := EffectivePrefix(prefix);
            && prefix <= p && |p| <= |prefix| + 1 && (p == "" <==> prefix == "") && (p != "" ==> p[|p| - 1] == '/')
            && (p != prefix ==> prefix != "" && prefix[|prefix| - 1] != '/') && EffectivePrefix(p) == p
  {}

  // ---------------------------------------------------------------- the view through a prefix

  /** The keys below a prefix, with the prefix taken off. */
  function Tails(objects: Objects, prefix: string): (tails: set<string>)
    ensures forall k :: k in tails <==> prefix + k in objects
  {
    var tails := set key | key in objects && HasPrefix(key, prefix) :: key[|prefix|..];
    assert forall k :: k in tails ==> prefix + k in objects by {
      forall k | k in tails ensures prefix + k in objects {
        var key :| key in objects && HasPrefix(key, prefix) && key[|prefix|..] == k;
        assert key == prefix + k;
      }
    }
    assert forall k :: prefix + k in objects ==> k in tails by {
      forall k | prefix + k in objects ensures k in tails {
        assert (prefix + k)[|prefix|..] == k;
      }
    }
    tails
  }

  /** The store a prefix shows. */
  function View(objects: Objects, prefix: string): Objects {
    map k | k in Tails(objects, prefix) :: objects[prefix + k]
  }

  lemma Stripped(prefix: string, k: string)
    ensures HasPrefix(prefix + k, prefix) && (prefix + k)[|prefix|..] == k
  {}

  lemma ViewAt(objects: Objects, prefix: string, k: string)
    ensures k in View(objects, prefix) <==> prefix + k in objects
    ensures k in View(objects, prefix) ==> View(objects, prefix)[k] == objects[prefix + k]
  {}

  /** An upload through the prefix is an upload in the view. */
  lemma UploadView(objects: Objects, prefix: string, k: string, v: Content)
    ensures View(objects[prefix + k := v], prefix) == View(objects, prefix)[k := v]
  {
    var after := View(objects[prefix + k := v], prefix);
    forall j ensures j in after <==> j in View(objects, prefix)[k := v]
             ensures j in after ==> after[j] == View(objects, prefix)[k := v][j]
    {
      ViewAt(objects, prefix, j);
      ViewAt(objects[prefix + k := v], prefix, j);
      assert prefix + j == prefix + k ==> j == k by {
        Stripped(prefix, j);
        Stripped(prefix, k);
      }
    }
  }

  /** A deletion through the prefix is a deletion in the view. */
  lemma DeleteView(objects: Objects, prefix: string, k: string)
    ensures View(objects - {prefix + k}, prefix) == View(objects, prefix) - {k}
  {
    var after := View(objects - {prefix + k}, prefix);
    forall j ensures j in after <==> j in View(objects, prefix) - {k}
             ensures j in after ==> after[j] == (View(objects, prefix) - {k})[j]
    {
      ViewAt(objects, prefix, j);
      ViewAt(objects - {prefix + k}, prefix, j);
      assert prefix + j == prefix + k ==> j == k by {
        Stripped(prefix, j);
        Stripped(prefix, k);
      }
    }
  }

  // ---------------------------------------------------------------- environments

  predicate Comparable(p: string, q: string) {
    p <= q || q <= p
  }

  /** Two prefixes share a key exactly when one of them is a prefix of the other. */
  lemma SharedKeyIff(p: string, q: string)
    ensures (exists key :: HasPrefix(key, p) && HasPrefix(key, q)) <==> Comparable(p, q)
  {
    if p <= q {
      assert HasPrefix(q, p) && HasPrefix(q, q);
    } else if q <= p {
      assert HasPrefix(p, p) && HasPrefix(p, q);
    }
    forall key | HasPrefix(key, p) && HasPrefix(key, q) ensures Comparable(p, q) {
      if |p| <= |q| {
        assert key[..|q|][..|p|] == key[..|p|];
      } else {
        assert key[..|p|][..|q|] == key[..|q|];
      }
    }
  }

  /** What is done through one prefix does not show through another that shares no key with it. */
  lemma WritesStayOut(objects: Objects, p: string, q: string, k: string, v: Content)
    requires !Comparable(p, q)
    ensures View(objects[p + k := v], q) == View(objects, q) && View(objects - {p + k}, q) == View(objects, q)
  {
    forall j ensures p + k != q + j {
      Stripped(p, k);
      Stripped(q, j);
      if p + k == q + j {
        SharedKeyIff(p, q);
      }
    }
    forall j ensures j in View(objects[p + k := v], q) <==> j in View(objects, q)
             ensures j in View(objects - {p + k}, q) <==> j in View(objects, q)
             ensures j in View(objects, q)
               ==> View(objects[p + k := v], q)[j] == View(objects, q)[j] == View(objects - {p + k}, q)[j]
    {
      ViewAt(objects, q, j);
      ViewAt(objects[p + k := v], q, j);
      ViewAt(objects - {p + k}, q, j);
    }
  }

  predicate IsEnvironment(name: string) {
    name != "" && '/' !in name
  }

  lemma NoSlashInside(name: string, i: int)
    requires '/' !in name && 0 <= i < |name|
    ensures (name + "/")[i] != '/'
  {
    assert (name + "/")[i] == name[i] && name[i] in name;
  }

  lemma PrefixMeansEqual(a: string, b: string)
    requires IsEnvironment(b) && a + "/" <= b + "/"
    ensures a == b
  {
    assert (a + "/")[|a|] == '/' && (b + "/")[|a|] == '/';
    if |a| < |b| {
      NoSlashInside(b, |a|);
    } else {
      assert a == (a + "/")[..|a|] && b == (b + "/")[..|b|];
    }
  }

  /** Distinct environment names have prefixes that share no key. */
  lemma EnvironmentsApart(a: string, b: string)
    requires IsEnvironment(a) && IsEnvironment(b) && a != b
    ensures !Comparable(EffectivePrefix(a), EffectivePrefix(b))
  {
    assert a[|a| - 1] in a && b[|b| - 1] in b;
    assert EffectivePrefix(a) == a + "/" && EffectivePrefix(b) == b + "/";
    if a + "/" <= b + "/" {
      PrefixMeansEqual(a, b);
    }
    if b + "/" <= a + "/" {
      PrefixMeansEqual(b, a);
    }
  }

  /** So neither uploads nor deletions in one environment are visible in another. */
  lemma EnvironmentsIsolated(objects: Objects, a: string, b: string, k: string, v: Content)
    requires IsEnvironment(a) && IsEnvironment(b) && a != b
    ensures View(objects[EffectivePrefix(a) + k := v], EffectivePrefix(b)) == View(objects, EffectivePrefix(b))
    ensures View(objects - {EffectivePrefix(a) + k}, EffectivePrefix(b)) == View(objects, EffectivePrefix(b))
  {
    EnvironmentsApart(a, b);
    WritesStayOut(objects, EffectivePrefix(a), EffectivePrefix(b), k, v);
  }

  // ---------------------------------------------------------------- the stores

  predicate NoRepeats(keys: seq<string>) {
    forall i, j :: 0 <= i < j < |keys| ==> keys[i] != keys[j]
  }

  class FlatStore {
    var objects: Objects

    constructor ()
      ensures objects == map[]
    {
      objects := map[];
    }

    method Upload(key: string, content: Content)
      modifies this
      ensures objects == old(objects)[key := content]
    {
      objects := objects[key := content];
    }

    method Download(key: string) returns (content: Option<Content>)
      ensures content == if key in objects then Some(objects[key]) else None
    {
      content := if key in objects then Some(objects[key]) else None;
    }

    method Delete(key: string)
      modifies this
      ensures objects == old(objects) - {key}
    {
      objects := objects - {key};
    }

    /** The keys below a prefix, each once, in whatever order. */
    method List(prefix: string) returns (keys: seq<string>)
      ensures NoRepeats(keys) && forall key :: key in keys <==> key in objects && HasPrefix(key, prefix)
    {
      keys := [];
      var left := objects.Keys;
      while left != {}
        invariant left <= objects.Keys && NoRepeats(keys)
        invariant forall key :: key in keys <==> key in objects && key !in left && HasPrefix(key, prefix)
        decreases |left|
      {
        var key :| key in left;
        if HasPrefix(key, prefix) {
          keys := keys + [key];
        }
        left := left - {key};
      }
    }
  }

  class PrefixedStorageProvider {
    const prefix: string
    const parent: FlatStore

    constructor (prefix: string, parent: FlatStore)
      ensures this.prefix == EffectivePrefix(prefix) && this.parent == parent
    {
      this.prefix := if prefix == "" || prefix[|prefix| - 1] == '/' then prefix else prefix + "/";
      this.parent := parent;
    }

    /** The plain store this one behaves as. */
    ghost function Shown(): Objects
      reads parent
    {
      View(parent.objects, prefix)
    }

    method Upload(key: string, content: Content)
      modifies parent
      ensures Shown() == old(Shown())[key := content]
      ensures parent.objects == old(parent.objects)[prefix + key := content]
    {
      UploadView(parent.objects, prefix, key, content);
      parent.Upload(prefix + key, content);
    }

    method Download(key: string) returns (content: Option<Content>)
      ensures content == if key in Shown() then Some(Shown()[key]) else None
    {
      ViewAt(parent.objects, prefix, key);
      content := parent.Download(prefix + key);
    }

    method Delete(key: string)
      modifies parent
      ensures Shown() == old(Shown()) - {key}
      ensures parent.objects == old(parent.objects) - {prefix + key}
    {
      DeleteView(parent.objects, prefix, key);
      parent.Delete(prefix + key);
    }

    /** List takes off exactly the prefix the other operations put on: it lists the keys of the store shown. */
    method List(below: string) returns (keys: seq<string>)
      ensures NoRepeats(keys) && forall key :: key in keys <==> key in Shown() && HasPrefix(key, below)
    {
      var full := parent.List(prefix + below);
      keys := [];
      var i := 0;
      while i < |full|
        invariant 0 <= i <= |full| && |keys| == i
        invariant forall j :: 0 <= j < i ==> prefix + keys[j] == full[j] && HasPrefix(keys[j], below)
      {
        assert full[i] in full;
        assert full[i][..|prefix + below|] == prefix + below;
        assert prefix == full[i][..|prefix|] && below == full[i][|prefix|..][..|below|];
        var key := full[i];
        keys := keys + [if HasPrefix(key, prefix) then key[|prefix|..] else key];
        i := i + 1;
      }
      forall key ensures key in keys <==> key in Shown() && HasPrefix(key, below) {
        ViewAt(parent.objects, prefix, key);
        if key in keys {
          var j :| 0 <= j < |keys| && keys[j] == key;
          assert full[j] in full;
        }
        if key in Shown() && HasPrefix(key, below) {
          assert prefix + key == (prefix + below) + key[|below|..];
          var j :| 0 <= j < |full| && full[j] == prefix + key;
          Stripped(prefix, key);
          Stripped(prefix, keys[j]);
        }
      }
    }
  }

  // ---------------------------------------------------------------- the orphan sweep

  datatype FileRow = FileRow(storageKey: string, thumbnailKey: Option<string>)

  /** Some row references the key. */
  predicate Referenced(rows: seq<FileRow>, key: string) {
    exists i :: 0 <= i < |rows| && (rows[i].storageKey == key || (rows[i].thumbnailKey == Some(key) && key != ""))
  }

  method GetAllStorageKeys(rows: seq<FileRow>) returns (keys: set<string>)
    ensures forall key :: key in keys <==> Referenced(rows, key)
  {
    keys := {};
    var i := 0;
    while i < |rows|
      invariant 0 <= i <= |rows|
      invariant forall key :: key in keys <==> Referenced(rows[..i], key)
    {
      ghost var before := keys;
      keys := keys + {rows[i].storageKey};
      if rows[i].thumbnailKey.Some? && rows[i].thumbnailKey.value != "" {
        keys := keys + {rows[i].thumbnailKey.value};
      }
      forall key ensures key in keys <==> Referenced(rows[..i + 1], key) {
        ReferencedNext(rows, i, key);
      }
      i := i + 1;
    }
    assert rows[..i] == rows;
  }

  lemma ReferencedNext(rows: seq<FileRow>, i: nat, key: string)
    requires i < |rows|
    ensures Referenced(rows[..i + 1], key) <==>
      Referenced(rows[..i], key) || rows[i].storageKey == key || (rows[i].thumbnailKey == Some(key) && key != "")
  {
    var a, b := rows[..i], rows[..i + 1];
    assert forall j :: 0 <= j < i ==> b[j] == a[j];
    assert b[i] == rows[i];
    if Referenced(b, key) {
      var j :| 0 <= j < |b| && (b[j].storageKey == key || (b[j].thumbnailKey == Some(key) && key != ""));
      if j < i {
        assert a[j].storageKey == key || (a[j].thumbnailKey == Some(key) && key != "");
      }
    }
  }

  /** Below `area` only the kept keys remain; elsewhere nothing changes. */
  function Swept(shown: Objects, area: string, kept: set<string>): Objects {
    map key | key in shown && (HasPrefix(key, area) ==> key in kept) :: shown[key]
  }

  /** Keys without the prefix are as they were. */
  ghost predicate Inside(before: Objects, after: Objects, prefix: string) {
    forall key :: !HasPrefix(key, prefix) ==>
      (key in after <==> key in before) && (key in after ==> after[key] == before[key])
  }

  lemma InsideStep(before: Objects, after: Objects, prefix: string, k: string)
    requires Inside(before, after, prefix)
    ensures Inside(before, after - {prefix + k}, prefix)
  {
    Stripped(prefix, k);
  }

  function Members(keys: seq<string>): set<string> {
    if keys == [] then {} else Members(keys[..|keys| - 1]) + {keys[|keys| - 1]}
  }

  lemma {:induction false} MembersAre(keys: seq<string>, key: string)
    ensures key in Members(keys) <==> key in keys
    decreases |keys|
  {
    if keys != [] {
      MembersAre(keys[..|keys| - 1], key);
      assert keys == keys[..|keys| - 1] + [keys[|keys| - 1]];
    }
  }

  lemma MinusTwice(m: Objects, gone: set<string>, k: string)
    ensures m - gone - {k} == m - (gone + {k})
  {}

  /** One turn of the deletion loop. */
  lemma OneMoreDeleted(before: Objects, after: Objects, prefix: string, shown: Objects, keys: seq<string>, i: nat)
    requires i < |keys| && Inside(before, after, prefix)
    ensures shown - Members(keys[..i]) - {keys[i]} == shown - Members(keys[..i + 1])
    ensures Inside(before, after - {prefix + keys[i]}, prefix)
  {
    assert keys[..i + 1][..i] == keys[..i];
    MinusTwice(shown, Members(keys[..i]), keys[i]);
    InsideStep(before, after, prefix, keys[i]);
  }

  lemma DeletedIsSwept(shown: Objects, orphans: seq<string>, area: string, active: set<string>)
    requires forall key :: key in orphans <==> key in shown && HasPrefix(key, area) && key !in active
    ensures shown - Members(orphans) == Swept(shown, area, active)
  {
    forall key ensures key in Members(orphans) <==> key in orphans {
      MembersAre(orphans, key);
    }
  }

  class Scheduler {
    const store: PrefixedStorageProvider

    constructor (store: PrefixedStorageProvider)
      ensures this.store == store
    {
      this.store := store;
    }

    method OrphansOf(keys: seq<string>, active: set<string>) returns (orphans: seq<string>)
      ensures forall key :: key in orphans <==> key in keys && key !in active
    {
      orphans := [];
      var i := 0;
      while i < |keys|
        invariant 0 <= i <= |keys|
        invariant forall key :: key in orphans <==> key in keys[..i] && key !in active
      {
        assert keys[..i + 1] == keys[..i] + [keys[i]];
        if keys[i] !in active {
          orphans := orphans + [keys[i]];
        }
        i := i + 1;
      }
      assert keys[..i] == keys;
    }

    method DeleteAll(keys: seq<string>)
      modifies store.parent
      ensures store.Shown() == old(store.Shown()) - Members(keys)
      ensures Inside(old(store.parent.objects), store.parent.objects, store.prefix)
    {
      ghost var first, shown := store.parent.objects, store.Shown();
      var i := 0;
      while i < |keys|
        invariant 0 <= i <= |keys|
        invariant store.Shown() == shown - Members(keys[..i])
        invariant Inside(first, store.parent.objects, store.prefix)
      {
        OneMoreDeleted(first, store.parent.objects, store.prefix, shown, keys, i);
        store.Delete(keys[i]);
        i := i + 1;
      }
      assert keys[..i] == keys;
    }

    method SweepArea(area: string, active: set<string>)
      modifies store.parent
      ensures store.Shown() == Swept(old(store.Shown()), area, active)
      ensures Inside(old(store.parent.objects), store.parent.objects, store.prefix)
    {
      var keys := store.List(area);
      var orphans := OrphansOf(keys, active);
      DeletedIsSwept(store.Shown(), orphans, area, active);
      DeleteAll(orphans);
    }

    /** Parts 1 and 2. None: the database could not be read, and the part is skipped. */
    method CleanupOrphans(avatars: Option<set<string>>, rows: Option<seq<FileRow>>)
      modifies store.parent
      ensures avatars.None? && rows.None? ==> store.Shown() == old(store.Shown())
      ensures rows.Some? ==> forall key :: HasPrefix(key, "user/") ==>
                (key in store.Shown() <==> key in old(store.Shown()) && Referenced(rows.value, key))
      ensures avatars.Some? ==> forall key :: HasPrefix(key, "avatars/") ==>
                (key in store.Shown() <==> key in old(store.Shown()) && key in avatars.value)
      ensures forall key ::
        key in old(store.Shown()) && !HasPrefix(key, "user/") && !HasPrefix(key, "avatars/") ==> key in store.Shown()
      ensures forall key :: key in store.Shown() ==>
        key in old(store.Shown()) && store.Shown()[key] == old(store.Shown())[key]
      ensures Inside(old(store.parent.objects), store.parent.objects, store.prefix)
    {
      assert !Comparable("user/", "avatars/") by {
        assert "user/"[0] != "avatars/"[0];
      }
      SharedKeyIff("user/", "avatars/");
      if avatars.Some? {
        SweepArea("avatars/", avatars.value);
      }
      if rows.Some? {
        var active := GetAllStorageKeys(rows.value);
        SweepArea("user/", active);
      }
    }
  }
}
