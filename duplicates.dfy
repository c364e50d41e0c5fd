/** Duplicate detection (`find_duplicate_movies`): every movie folder is
    keyed by its normalised title and year, folders are collected into
    buckets by key, and the buckets holding more than one folder are the
    duplicate groups. */
module Duplicates {
  import opened Text
  import Title
  import Quality

  /** A movie folder as the scan sees it. The size of its largest video file
      is read from the disk, so it is given. */
  datatype Folder = Folder(path: string, name: string, fileSize: nat)

  /** The record the scan keeps per folder. */
  datatype Entry = Entry(
    path: string,
    originalName: string,
    year: Option<string>,
    quality: Quality.QualityScore,
    fileSize: nat)

  /** An entry together with the key of its bucket. */
  datatype Keyed = Keyed(key: string, entry: Entry)

  /** The bucket key: the normalised title, followed by `|` and the year
      when the year is present and not empty. */
  function KeyOf(info: Title.TitleInfo): string {
    if info.year.Some? && info.year.value != [] then info.normalizedTitle + "|" + info.year.value
    else info.normalizedTitle
  }

  /** What the scan computes for one folder. */
  function KeyedOf(f: Folder): Keyed {
    var info := Title.NormalizedTitle(f.name);
    Keyed(KeyOf(info), Entry(f.path, f.name, info.year, Quality.QualityOf(f.name), f.fileSize))
  }

  /** The keyed entries of the folders, in scan order. */
  function Scan(folders: seq<Folder>): (ks: seq<Keyed>)
    ensures |ks| == |folders|
  {
    seq(|folders|, i requires 0 <= i < |folders| => KeyedOf(folders[i]))
  }

  function Entries(ks: seq<Keyed>): (es: seq<Entry>)
    ensures |es| == |ks| && forall i :: 0 <= i < |ks| ==> es[i] == ks[i].entry
  {
    seq(|ks|, i requires 0 <= i < |ks| => ks[i].entry)
  }

  predicate NoDup(s: seq<string>) {
    forall i, j :: 0 <= i < j < |s| ==> s[i] != s[j]
  }

  /** Equal entries have equal keys: the key is a function of the entry. */
  predicate Consistent(ks: seq<Keyed>) {
    forall i, j :: 0 <= i < |ks| && 0 <= j < |ks| && ks[i].entry == ks[j].entry ==> ks[i].key == ks[j].key
  }

  // ---------------------------------------------------------------------
  // The dictionary the loop builds

  /** The keys of the dictionary in insertion order: a key is added the
      first time an entry carries it. */
  function KeysOf(ks: seq<Keyed>): seq<string>
    decreases |ks|
  {
    if ks == [] then []
    else
      var keys := KeysOf(ks[..|ks| - 1]);
      var k := ks[|ks| - 1].key;
      if k in keys then keys else keys + [k]
  }

  /** The dictionary after the loop has visited `ks`: a missing key gets an
      empty list, then the entry is appended to the key's list. */
  function Buckets(ks: seq<Keyed>): map<string, seq<Entry>>
    decreases |ks|
  {
    if ks == [] then map[]
    else
      var m := Buckets(ks[..|ks| - 1]);
      var x := ks[|ks| - 1];
      var m' := if x.key in m then m else m[x.key := []];
      m'[x.key := m'[x.key] + [x.entry]]
  }

  /** Reference definition of one bucket: the entries carrying key `k`, in
      scan order. */
  function Bucket(ks: seq<Keyed>, k: string): seq<Entry>
    decreases |ks|
  {
    if ks == [] then []
    else Bucket(ks[..|ks| - 1], k) + (if ks[|ks| - 1].key == k then [ks[|ks| - 1].entry] else [])
  }

  /** A bucket holds exactly the entries that carry its key. */
  lemma {:induction false} BucketMembers(ks: seq<Keyed>, k: string)
    ensures forall e :: e in Bucket(ks, k) ==> exists i :: 0 <= i < |ks| && ks[i] == Keyed(k, e)
    ensures forall i :: 0 <= i < |ks| && ks[i].key == k ==> ks[i].entry in Bucket(ks, k)
    decreases |ks|
  {
    if ks != [] {
      var p := ks[..|ks| - 1];
      BucketMembers(p, k);
      forall e | e in Bucket(ks, k)
        ensures exists i :: 0 <= i < |ks| && ks[i] == Keyed(k, e)
      {
        if e in Bucket(p, k) {
          var i :| 0 <= i < |p| && p[i] == Keyed(k, e);
          assert ks[i] == p[i];
        } else {
          assert ks[|ks| - 1] == Keyed(k, e);
        }
      }
      forall i | 0 <= i < |ks| && ks[i].key == k
        ensures ks[i].entry in Bucket(ks, k)
      {
        if i < |p| {
          assert p[i] == ks[i];
        }
      }
    }
  }

  /** The list the dictionary holds for `k`, empty when `k` is missing. */
  function Lookup(m: map<string, seq<Entry>>, k: string): seq<Entry> {
    if k in m then m[k] else []
  }

  /** Each list of the dictionary the loop builds is the reference bucket,
      and a key is missing exactly when its bucket is empty. */
  lemma {:induction false} BucketsValues(ks: seq<Keyed>)
    ensures forall k :: Lookup(Buckets(ks), k) == Bucket(ks, k)
    ensures forall k :: k in Buckets(ks) ==> Bucket(ks, k) != []
    decreases |ks|
  {
    if ks != [] {
      var p := ks[..|ks| - 1];
      var x := ks[|ks| - 1];
      BucketsValues(p);
      forall k
        ensures Lookup(Buckets(ks), k) == Bucket(ks, k)
        ensures k in Buckets(ks) ==> Bucket(ks, k) != []
      {
        if k == x.key {
          assert Lookup(Buckets(ks), k) == Lookup(Buckets(p), k) + [x.entry];
          assert Bucket(ks, k) == Bucket(p, k) + [x.entry];
        } else {
          assert Lookup(Buckets(ks), k) == Lookup(Buckets(p), k);
          assert Bucket(ks, k) == Bucket(p, k) + [];
        }
      }
    }
  }

  /** The keys of the dictionary, in insertion order, are listed once each:
      they are its domain, and they are the keys the entries carry. */
  lemma {:induction false} KeysOfDomain(ks: seq<Keyed>)
    ensures forall k :: k in Buckets(ks) <==> k in KeysOf(ks)
    ensures forall k :: k in KeysOf(ks) <==> exists i :: 0 <= i < |ks| && ks[i].key == k
    ensures NoDup(KeysOf(ks))
    decreases |ks|
  {
    if ks != [] {
      var p := ks[..|ks| - 1];
      KeysOfDomain(p);
      forall k | k in KeysOf(ks)
        ensures exists i :: 0 <= i < |ks| && ks[i].key == k
      {
        if k in KeysOf(p) {
          var i :| 0 <= i < |p| && p[i].key == k;
          assert ks[i] == p[i];
        }
      }
      forall i | 0 <= i < |ks|
        ensures ks[i].key in KeysOf(ks)
      {
        if i < |p| {
          assert p[i] == ks[i];
        }
      }
    }
  }

  /** The dictionary the loop builds holds one bucket per key that occurs,
      its keys are listed once each, and each bucket is the reference bucket. */
  lemma BucketsAreFilters(ks: seq<Keyed>)
    ensures forall k :: k in Buckets(ks) <==> k in KeysOf(ks)
    ensures forall k :: k in KeysOf(ks) <==> exists i :: 0 <= i < |ks| && ks[i].key == k
    ensures forall k :: k in Buckets(ks) ==> Buckets(ks)[k] == Bucket(ks, k)
    ensures NoDup(KeysOf(ks))
  {
    KeysOfDomain(ks);
    BucketsValues(ks);
    forall k | k in Buckets(ks)
      ensures Buckets(ks)[k] == Bucket(ks, k)
    {
      assert Lookup(Buckets(ks), k) == Buckets(ks)[k];
    }
  }

  /** A key that occurs in at least one entry has a non-empty bucket. */
  lemma BucketOfEntry(ks: seq<Keyed>, i: nat)
    requires i < |ks|
    ensures var k := ks[i].key;
      k in KeysOf(ks) && k in Buckets(ks) && ks[i].entry in Buckets(ks)[k]
  {
    BucketsAreFilters(ks);
    BucketMembers(ks, ks[i].key);
  }

  // ---------------------------------------------------------------------
  // Every entry lands in exactly one bucket

  /** The buckets of `keys`, one after the other. */
  function Concat(keys: seq<string>, m: map<string, seq<Entry>>): seq<Entry> {
    if keys == [] then [] else (if keys[0] in m then m[keys[0]] else []) + Concat(keys[1..], m)
  }

  lemma {:induction false} ConcatOther(keys: seq<string>, m: map<string, seq<Entry>>, k: string, b: seq<Entry>)
    requires k !in keys
    ensures Concat(keys, m[k := b]) == Concat(keys, m)
  {
    if keys != [] {
      ConcatOther(keys[1..], m, k, b);
    }
  }

  lemma {:induction false} ConcatSnoc(keys: seq<string>, m: map<string, seq<Entry>>, k: string)
    requires k in m
    ensures Concat(keys + [k], m) == Concat(keys, m) + m[k]
  {
    if keys == [] {
      assert [k][1..] == [];
    } else {
      var head := if keys[0] in m then m[keys[0]] else [];
      assert (keys + [k])[0] == keys[0];
      assert (keys + [k])[1..] == keys[1..] + [k];
      assert Concat(keys + [k], m) == head + Concat(keys[1..] + [k], m);
      ConcatSnoc(keys[1..], m, k);
      assert head + (Concat(keys[1..], m) + m[k]) == (head + Concat(keys[1..], m)) + m[k];
    }
  }

  lemma NoDupTail(keys: seq<string>)
    requires keys != [] && NoDup(keys)
    ensures keys[0] !in keys[1..] && NoDup(keys[1..])
  {
    forall j | 0 <= j < |keys[1..]|
      ensures keys[1..][j] != keys[0]
    {
      assert keys[1..][j] == keys[j + 1];
    }
  }

  lemma {:induction false} ConcatAppend(keys: seq<string>, m: map<string, seq<Entry>>, k: string, e: Entry)
    requires k in keys && k in m && NoDup(keys)
    ensures multiset(Concat(keys, m[k := m[k] + [e]])) == multiset(Concat(keys, m)) + multiset{e}
  {
    if keys[0] == k {
      NoDupTail(keys);
      ConcatOther(keys[1..], m, k, m[k] + [e]);
    } else {
      ConcatAppend(keys[1..], m, k, e);
    }
  }

  /** The buckets, taken in key order, hold every entry exactly as often as
      the scan produced it: no entry is lost and none is put in two buckets. */
  lemma {:induction false} Partition(ks: seq<Keyed>)
    ensures multiset(Concat(KeysOf(ks), Buckets(ks))) == multiset(Entries(ks))
    decreases |ks|
  {
    if ks != [] {
      var p := ks[..|ks| - 1];
      var x := ks[|ks| - 1];
      var keys := KeysOf(p);
      var m := Buckets(p);
      Partition(p);
      assert Entries(ks) == Entries(p) + [x.entry];
      KeysOfDomain(p);
      if x.key in keys {
        ConcatAppend(keys, m, x.key, x.entry);
      } else {
        var m' := m[x.key := []];
        ConcatOther(keys, m, x.key, []);
        ConcatOther(keys, m', x.key, [] + [x.entry]);
        ConcatSnoc(keys, m'[x.key := [] + [x.entry]], x.key);
      }
    }
  }

  // ---------------------------------------------------------------------
  // The duplicate groups

  /** The keys whose bucket has more than one entry, in the order of `keys`. */
  function LargeKeys(keys: seq<string>, m: map<string, seq<Entry>>): (r: seq<string>)
    ensures forall k :: k in r <==> k in keys && k in m && |m[k]| > 1
    ensures NoDup(keys) ==> NoDup(r)
  {
    if keys == [] then []
    else
      var rest := LargeKeys(keys[1..], m);
      if keys[0] in m && |m[keys[0]]| > 1 then
        if NoDup(keys) then NoDupTail(keys); [keys[0]] + rest
        else [keys[0]] + rest
      else rest
  }

  /** `[entries for entries in title_lookup.values() if len(entries) > 1]`,
      the values visited in the key order `keys`. */
  function LargeBuckets(keys: seq<string>, m: map<string, seq<Entry>>): seq<seq<Entry>> {
    var lk := LargeKeys(keys, m);
    seq(|lk|, j requires 0 <= j < |lk| => m[lk[j]])
  }

  /** What `find_duplicate_movies` returns for the keyed entries `ks`. */
  function Groups(ks: seq<Keyed>): seq<seq<Entry>> {
    LargeBuckets(KeysOf(ks), Buckets(ks))
  }

  /** The key of each group: group `j` is the bucket of key `j`. */
  function GroupKeysOf(ks: seq<Keyed>): seq<string> {
    LargeKeys(KeysOf(ks), Buckets(ks))
  }

  lemma GroupKeys(ks: seq<Keyed>)
    ensures var lk := GroupKeysOf(ks);
      && |lk| == |Groups(ks)| && NoDup(lk)
      && forall j :: 0 <= j < |lk| ==> lk[j] in Buckets(ks) && Groups(ks)[j] == Bucket(ks, lk[j])
  {
    BucketsAreFilters(ks);
  }

  /** Every group has at least two entries, and every entry of a group
      comes from the scan with the group's key. */
  lemma GroupsAreDuplicates(ks: seq<Keyed>)
    ensures |GroupKeysOf(ks)| == |Groups(ks)|
    ensures forall j :: 0 <= j < |Groups(ks)| ==> |Groups(ks)[j]| >= 2
    ensures forall j, e :: 0 <= j < |Groups(ks)| && e in Groups(ks)[j] ==>
      exists i :: 0 <= i < |ks| && ks[i] == Keyed(GroupKeysOf(ks)[j], e)
  {
    var lk := GroupKeysOf(ks);
    GroupKeys(ks);
    forall j | 0 <= j < |Groups(ks)|
      ensures |Groups(ks)[j]| >= 2
      ensures forall e :: e in Groups(ks)[j] ==> exists i :: 0 <= i < |ks| && ks[i] == Keyed(lk[j], e)
    {
      BucketMembers(ks, lk[j]);
    }
  }

  /** When the key is a function of the entry, no entry is in two groups. */
  lemma GroupsDisjoint(ks: seq<Keyed>)
    requires Consistent(ks)
    ensures forall j1, j2, e :: 0 <= j1 < j2 < |Groups(ks)| && e in Groups(ks)[j1] ==> e !in Groups(ks)[j2]
  {
    var lk := GroupKeysOf(ks);
    GroupKeys(ks);
    forall j1, j2, e | 0 <= j1 < j2 < |Groups(ks)| && e in Groups(ks)[j1]
      ensures e !in Groups(ks)[j2]
    {
      BucketMembers(ks, lk[j1]);
      BucketMembers(ks, lk[j2]);
      var i1 :| 0 <= i1 < |ks| && ks[i1] == Keyed(lk[j1], e);
      forall i | 0 <= i < |ks|
        ensures ks[i] != Keyed(lk[j2], e)
      {
        if ks[i].entry == e {
          assert ks[i].key == lk[j1];
        }
      }
    }
  }

  /** When the key is a function of the entry, an entry is in a group
      exactly when its bucket holds at least two entries. */
  lemma InGroupIff(ks: seq<Keyed>, i: nat)
    requires Consistent(ks) && i < |ks|
    ensures (exists j :: 0 <= j < |Groups(ks)| && ks[i].entry in Groups(ks)[j])
            <==> |Bucket(ks, ks[i].key)| >= 2
  {
    var lk := GroupKeysOf(ks);
    var k := ks[i].key;
    GroupKeys(ks);
    BucketOfEntry(ks, i);
    BucketsAreFilters(ks);
    if |Bucket(ks, k)| >= 2 {
      assert k in lk;
      var j :| 0 <= j < |lk| && lk[j] == k;
      assert ks[i].entry in Groups(ks)[j];
    }
    if exists j :: 0 <= j < |Groups(ks)| && ks[i].entry in Groups(ks)[j] {
      var j :| 0 <= j < |Groups(ks)| && ks[i].entry in Groups(ks)[j];
      BucketMembers(ks, lk[j]);
      var i2 :| 0 <= i2 < |ks| && ks[i2] == Keyed(lk[j], ks[i].entry);
      assert lk[j] == k;
    }
  }

  /** The folder scan keys every entry by its own name, so it is consistent. */
  lemma ScanConsistent(folders: seq<Folder>)
    ensures Consistent(Scan(folders))
    ensures forall i :: 0 <= i < |folders| ==>
      Scan(folders)[i].key == KeyOf(Title.NormalizedTitle(Scan(folders)[i].entry.originalName))
  {
  }

  lemma KeyListed(ks: seq<Keyed>, k: string)
    ensures k in Buckets(ks) <==> k in KeysOf(ks)
  {
    KeysOfDomain(ks);
  }

  /** One more entry: its key joins the key list if it is new, and its
      entry is appended to the key's list. */
  lemma Step(ks: seq<Keyed>, i: nat)
    requires i < |ks|
    ensures KeysOf(ks[..i + 1]) == if ks[i].key in KeysOf(ks[..i]) then KeysOf(ks[..i]) else KeysOf(ks[..i]) + [ks[i].key]
    ensures var m := Buckets(ks[..i]);
      var m' := if ks[i].key in m then m else m[ks[i].key := []];
      Buckets(ks[..i + 1]) == m'[ks[i].key := m'[ks[i].key] + [ks[i].entry]]
  {
    assert ks[..i + 1][..i] == ks[..i];
  }

  /** The entry and key the loop computes for one folder. */
  method MakeEntry(folder: Folder) returns (key: string, entry: Entry)
    ensures Keyed(key, entry) == KeyedOf(folder)
  {
    var titleInfo := Title.NormalizedTitle(folder.name);
    var quality := Quality.GetQualityScore(folder.name);
    entry := Entry(folder.path, folder.name, titleInfo.year, quality, folder.fileSize);
    key := titleInfo.normalizedTitle;
    if titleInfo.year.Some? && titleInfo.year.value != [] {
      key := key + "|" + titleInfo.year.value;
    }
  }

  /** `find_duplicate_movies` over folders already listed: the loop fills the
      dictionary in place (its insertion order kept in `order`), then the
      buckets with more than one entry are returned. */
  method FindDuplicateMovies(folders: seq<Folder>) returns (duplicates: seq<seq<Entry>>)
    ensures duplicates == Groups(Scan(folders))
  {
    if folders == [] {
      return [];
    }
    ghost var ks := Scan(folders);
    var titleLookup: map<string, seq<Entry>> := map[];
    var order: seq<string> := [];
    for i := 0 to |folders|
      invariant order == KeysOf(ks[..i]) && titleLookup == Buckets(ks[..i])
    {
      var key, entry := MakeEntry(folders[i]);
      Step(ks, i);
      KeyListed(ks[..i], key);
      if key !in titleLookup {
        titleLookup := titleLookup[key := []];
        order := order + [key];
      }
      titleLookup := titleLookup[key := titleLookup[key] + [entry]];
    }
    assert ks[..|folders|] == ks;
    duplicates := LargeBuckets(order, titleLookup);
  }
}
