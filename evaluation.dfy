/**
 * The evaluation driver: which comparisons the performance script makes. For
 * each subject folder with at least five `.npy` files it compares every pair
 * (i, j), i < j, of its first five files (mated), and the same number of files
 * of other subjects, drawn from a shuffled global pool, against its first file
 * (non-mated). Each comparison's score is `Shares.SharedSquaredDistance` of the
 * loaded vectors (before the square root).
 */
module Evaluation {
  import opened Wrappers
  import opened Storage

  /** How many files per subject take part. */
  const ChosenCount: nat := 5

  /** An entry of the global pool: a subject id and one of its files. */
  datatype Candidate = Candidate(subject: string, file: FileEntry)

  /** `compare_samples(np.load(probe), subject, template)`, before it is scored. */
  datatype Comparison = Comparison(subject: string, template: string, probe: Candidate)

  /** Directory entries never share a name. */
  predicate DistinctNames(listing: seq<DirEntry>)
  {
    forall i, j :: 0 <= i < j < |listing| ==> listing[i].name != listing[j].name
  }

  /** `glob` of `*.npy` in a subject folder: the matching files, in listing order. */
  function NpyFiles(files: seq<FileEntry>): (r: seq<FileEntry>)
    ensures |r| <= |files|
  {
    if files == [] then []
    else (if GlobMatchesNpy(files[0].name) then [files[0]] else []) + NpyFiles(files[1..])
  }

  lemma {:induction false} NpyFilesMembers(files: seq<FileEntry>)
    ensures forall f :: f in NpyFiles(files) <==> f in files && GlobMatchesNpy(f.name)
  {
    if files != [] {
      NpyFilesMembers(files[1..]);
      assert files == [files[0]] + files[1..];
    }
  }

  /** `all_files_dict`: every subject folder, with its `.npy` files. */
  function FilesDict(listing: seq<DirEntry>): map<string, seq<FileEntry>>
  {
    if listing == [] then map[]
    else
      var d := FilesDict(listing[..|listing| - 1]);
      var e := listing[|listing| - 1];
      if e.Folder? then d[e.name := NpyFiles(e.files)] else d
  }

  /** `all_files_dict.get(subject, [])`. */
  function FilesFor(dict: map<string, seq<FileEntry>>, subject: string): seq<FileEntry>
  {
    if subject in dict then dict[subject] else []
  }

  /**
   * The dictionary has a key exactly for each folder of the listing, and holds
   * that folder's `.npy` files; plain files are not keys.
   */
  lemma {:induction false} FilesDictLookup(listing: seq<DirEntry>)
    requires DistinctNames(listing)
    ensures forall s :: s in FilesDict(listing) <==> exists k :: 0 <= k < |listing| && listing[k].Folder? && listing[k].name == s
    ensures forall k :: 0 <= k < |listing| && listing[k].Folder? ==> FilesDict(listing)[listing[k].name] == NpyFiles(listing[k].files)
  {
    if listing != [] {
      var init := listing[..|listing| - 1];
      assert DistinctNames(init);
      FilesDictLookup(init);
      forall s ensures s in FilesDict(listing) <==> (exists k :: 0 <= k < |listing| && listing[k].Folder? && listing[k].name == s) {
        if s in FilesDict(init) {
          var k :| 0 <= k < |init| && init[k].Folder? && init[k].name == s;
          assert listing[k] == init[k];
        }
        if exists k :: 0 <= k < |listing| && listing[k].Folder? && listing[k].name == s {
          var k :| 0 <= k < |listing| && listing[k].Folder? && listing[k].name == s;
          if k < |init| {
            assert init[k] == listing[k];
          }
        }
      }
      forall k | 0 <= k < |listing| && listing[k].Folder?
        ensures FilesDict(listing)[listing[k].name] == NpyFiles(listing[k].files)
      {
        if k < |init| {
          assert init[k] == listing[k];
        }
      }
    }
  }

  /** The loop that builds `all_files_dict`, skipping entries that are not directories. */
  method BuildFilesDict(listing: seq<DirEntry>) returns (dict: map<string, seq<FileEntry>>)
    ensures dict == FilesDict(listing)
  {
    dict := map[];
    var n := 0;
    while n < |listing|
      invariant n <= |listing|
      invariant dict == FilesDict(listing[..n])
    {
      assert listing[..n + 1][..n] == listing[..n];
      var e := listing[n];
      if e.Folder? {
        dict := dict[e.name := NpyFiles(e.files)];
      }
      n := n + 1;
    }
    assert listing[..n] == listing;
  }

  function Tagged(subject: string, files: seq<FileEntry>): seq<Candidate>
  {
    seq(|files|, k requires 0 <= k < |files| => Candidate(subject, files[k]))
  }

  /** `global_pool`: every (subject, file) of the dictionary, folder by folder. */
  function GlobalPool(listing: seq<DirEntry>): seq<Candidate>
  {
    if listing == [] then []
    else
      var e := listing[|listing| - 1];
      GlobalPool(listing[..|listing| - 1]) + (if e.Folder? then Tagged(e.name, NpyFiles(e.files)) else [])
  }

  /** The pool holds exactly the pairs (subject, file) of the dictionary. */
  lemma {:induction false} GlobalPoolMembers(listing: seq<DirEntry>)
    requires DistinctNames(listing)
    ensures forall c :: c in GlobalPool(listing) <==>
      c.subject in FilesDict(listing) && c.file in FilesDict(listing)[c.subject]
  {
    if listing != [] {
      var init := listing[..|listing| - 1];
      var e := listing[|listing| - 1];
      assert DistinctNames(init);
      GlobalPoolMembers(init);
      FilesDictLookup(init);
      if e.Folder? {
        assert e.name !in FilesDict(init) by {
          if e.name in FilesDict(init) {
            var k :| 0 <= k < |init| && init[k].Folder? && init[k].name == e.name;
          }
        }
        forall c ensures c in Tagged(e.name, NpyFiles(e.files)) <==> c.subject == e.name && c.file in NpyFiles(e.files) {
          if c.subject == e.name && c.file in NpyFiles(e.files) {
            var k :| 0 <= k < |NpyFiles(e.files)| && NpyFiles(e.files)[k] == c.file;
            assert Tagged(e.name, NpyFiles(e.files))[k] == c;
          }
        }
      }
    }
  }

  /** `other_files`: the pool without the subject's own files, in pool order. */
  function Others(pool: seq<Candidate>, subject: string): (r: seq<Candidate>)
    ensures |r| <= |pool|
  {
    if pool == [] then []
    else (if pool[0].subject != subject then [pool[0]] else []) + Others(pool[1..], subject)
  }

  lemma {:induction false} OthersMembers(pool: seq<Candidate>, subject: string)
    ensures forall c :: c in Others(pool, subject) <==> c in pool && c.subject != subject
  {
    if pool != [] {
      OthersMembers(pool[1..], subject);
      assert pool == [pool[0]] + pool[1..];
    }
  }

  /** `random.shuffle`: some permutation of the list, chosen by the environment. */
  method Shuffle(xs: seq<Candidate>) returns (ys: seq<Candidate>)
    ensures multiset(ys) == multiset(xs)
  {
    ys := xs;
  }

  /** The mated comparison of template `chosen[i]` with probe `chosen[j]`. */
  function Pair(subject: string, chosen: seq<FileEntry>, i: nat, j: nat): Comparison
    requires i < |chosen| && j < |chosen|
  {
    Comparison(subject, chosen[i].name, Candidate(subject, chosen[j]))
  }

  /** One pass of the inner loop: template i against each later file. */
  function Row(subject: string, chosen: seq<FileEntry>, i: nat): seq<Comparison>
    requires |chosen| == ChosenCount && i < ChosenCount
  {
    seq(ChosenCount - 1 - i, k requires 0 <= k < ChosenCount - 1 - i => Pair(subject, chosen, i, i + 1 + k))
  }

  /** The first n passes of the outer loop. */
  function MatedRows(subject: string, chosen: seq<FileEntry>, n: nat): seq<Comparison>
    requires |chosen| == ChosenCount && n <= ChosenCount
  {
    if n == 0 then [] else MatedRows(subject, chosen, n - 1) + Row(subject, chosen, n - 1)
  }

  /** `local_mated_scores`, as comparisons. */
  function Mated(subject: string, chosen: seq<FileEntry>): seq<Comparison>
    requires |chosen| == ChosenCount
  {
    MatedRows(subject, chosen, ChosenCount)
  }

  lemma {:induction false} MatedRowsMembers(subject: string, chosen: seq<FileEntry>, n: nat)
    requires |chosen| == ChosenCount && n <= ChosenCount
    ensures 2 * |MatedRows(subject, chosen, n)| == n * (9 - n)
    ensures forall c :: c in MatedRows(subject, chosen, n) <==>
      exists i, j :: 0 <= i < n && i < j < ChosenCount && c == Pair(subject, chosen, i, j)
  {
    if n > 0 {
      MatedRowsMembers(subject, chosen, n - 1);
      var i := n - 1;
      var row := Row(subject, chosen, i);
      forall c ensures c in row <==> (exists j :: i < j < ChosenCount && c == Pair(subject, chosen, i, j)) {
        if exists j :: i < j < ChosenCount && c == Pair(subject, chosen, i, j) {
          var j :| i < j < ChosenCount && c == Pair(subject, chosen, i, j);
          assert row[j - n] == c;
        }
      }
    }
  }

  /**
   * The mated comparisons of a subject are exactly its ten index pairs
   * `0 <= i < j < 5`: template file i against probe file j.
   */
  lemma MatedPairs(subject: string, chosen: seq<FileEntry>)
    requires |chosen| == ChosenCount
    ensures |Mated(subject, chosen)| == 10
    ensures forall c :: c in Mated(subject, chosen) <==>
      exists i, j :: 0 <= i < j < ChosenCount && c == Pair(subject, chosen, i, j)
  {
    MatedRowsMembers(subject, chosen, ChosenCount);
  }

  /** The two nested `for` loops over i and j. */
  method MatedComparisons(subject: string, chosen: seq<FileEntry>) returns (ms: seq<Comparison>)
    requires |chosen| == ChosenCount
    ensures ms == Mated(subject, chosen)
  {
    ms := [];
    for i := 0 to ChosenCount
      invariant ms == MatedRows(subject, chosen, i)
    {
      ghost var before := ms;
      for j := i + 1 to ChosenCount
        invariant ms == before + Row(subject, chosen, i)[..j - i - 1]
      {
        assert Row(subject, chosen, i)[..j - i] == Row(subject, chosen, i)[..j - i - 1] + [Pair(subject, chosen, i, j)];
        ms := ms + [Pair(subject, chosen, i, j)];
      }
      assert Row(subject, chosen, i)[..ChosenCount - i - 1] == Row(subject, chosen, i);
    }
  }

  /** The `for` loop over `chosen_nonmated`: every probe against the same template. */
  method NonMatedComparisons(subject: string, template: string, chosen: seq<Candidate>) returns (cs: seq<Comparison>)
    ensures |cs| == |chosen|
    ensures forall k :: 0 <= k < |cs| ==> cs[k] == Comparison(subject, template, chosen[k])
  {
    cs := [];
    for k := 0 to |chosen|
      invariant |cs| == k
      invariant forall m :: 0 <= m < k ==> cs[m] == Comparison(subject, template, chosen[m])
    {
      cs := cs + [Comparison(subject, template, chosen[k])];
    }
  }

  /** Whether a subject takes part: at least five files. */
  predicate Qualifies(listing: seq<DirEntry>, subject: string)
  {
    |FilesFor(FilesDict(listing), subject)| >= ChosenCount
  }

  /** A subject's mated comparisons, none when it has fewer than five files. */
  function MatedOf(listing: seq<DirEntry>, subject: string): seq<Comparison>
  {
    var files := FilesFor(FilesDict(listing), subject);
    if |files| < ChosenCount then [] else Mated(subject, files[..ChosenCount])
  }

  /** `mated_scores` after the first n subjects, as comparisons. */
  function MatedOver(listing: seq<DirEntry>, n: nat): seq<Comparison>
    requires n <= |listing|
  {
    if n == 0 then [] else MatedOver(listing, n - 1) + MatedOf(listing, listing[n - 1].name)
  }

  /** How many of the first n subjects take part. */
  function QualifyingCount(listing: seq<DirEntry>, n: nat): nat
    requires n <= |listing|
  {
    if n == 0 then 0 else QualifyingCount(listing, n - 1) + (if Qualifies(listing, listing[n - 1].name) then 1 else 0)
  }

  /** How many non-mated comparisons the first n subjects make: `min(K, |other_files|)` each. */
  function NonMatedCount(listing: seq<DirEntry>, n: nat): nat
    requires n <= |listing|
  {
    if n == 0 then 0
    else
      var subject := listing[n - 1].name;
      NonMatedCount(listing, n - 1)
        + (if Qualifies(listing, subject) then Min(10, |Others(GlobalPool(listing), subject)|) else 0)
  }

  /**
   * A valid non-mated comparison: the subject takes part, the template is its first
   * file, and the probe is a pool entry of another subject.
   */
  predicate NonMatedOk(listing: seq<DirEntry>, c: Comparison)
  {
    && Qualifies(listing, c.subject)
    && c.template == FilesFor(FilesDict(listing), c.subject)[0].name
    && c.probe in GlobalPool(listing)
    && c.probe.subject != c.subject
  }

  /**
   * The mated total is ten per participating subject, and there are never more
   * non-mated comparisons than mated ones.
   */
  lemma {:induction false} Totals(listing: seq<DirEntry>, n: nat)
    requires n <= |listing|
    ensures |MatedOver(listing, n)| == 10 * QualifyingCount(listing, n)
    ensures NonMatedCount(listing, n) <= |MatedOver(listing, n)|
  {
    if n > 0 {
      Totals(listing, n - 1);
      var subject := listing[n - 1].name;
      var files := FilesFor(FilesDict(listing), subject);
      if |files| >= ChosenCount {
        MatedPairs(subject, files[..ChosenCount]);
      }
    }
  }

  /**
   * Every mated comparison belongs to a participating subject, compares two of
   * its first five files (i < j), and uses that subject's own file as the probe.
   */
  lemma {:induction false} MatedOverMembers(listing: seq<DirEntry>, n: nat)
    requires n <= |listing|
    ensures forall c :: c in MatedOver(listing, n) ==>
      && Qualifies(listing, c.subject)
      && exists i, j :: 0 <= i < j < ChosenCount
           && c == Pair(c.subject, FilesFor(FilesDict(listing), c.subject)[..ChosenCount], i, j)
  {
    if n > 0 {
      MatedOverMembers(listing, n - 1);
      var subject := listing[n - 1].name;
      var files := FilesFor(FilesDict(listing), subject);
      forall c | c in MatedOver(listing, n)
        ensures Qualifies(listing, c.subject)
        ensures exists i, j :: 0 <= i < j < ChosenCount && c == Pair(c.subject, FilesFor(FilesDict(listing), c.subject)[..ChosenCount], i, j)
      {
        if c !in MatedOver(listing, n - 1) {
          assert |files| >= ChosenCount && c in Mated(subject, files[..ChosenCount]);
          MatedPairs(subject, files[..ChosenCount]);
          var i, j :| 0 <= i < j < ChosenCount && c == Pair(subject, files[..ChosenCount], i, j);
          assert c.subject == subject;
        }
      }
    }
  }

  /**
   * `main`'s loop over the sorted subject ids, without the scoring: the mated
   * and non-mated comparisons it makes, in order.
   */
  method SelectComparisons(listing: seq<DirEntry>) returns (mated: seq<Comparison>, nonmated: seq<Comparison>)
    requires DistinctNames(listing)
    ensures mated == MatedOver(listing, |listing|)
    ensures |mated| == 10 * QualifyingCount(listing, |listing|)
    ensures |nonmated| == NonMatedCount(listing, |listing|) <= |mated|
    ensures forall c :: c in nonmated ==> NonMatedOk(listing, c)
  {
    var dict := BuildFilesDict(listing);
    var pool := GlobalPool(listing);
    mated, nonmated := [], [];
    var n := 0;
    while n < |listing|
      invariant n <= |listing|
      invariant mated == MatedOver(listing, n)
      invariant |nonmated| == NonMatedCount(listing, n)
      invariant forall c :: c in nonmated ==> NonMatedOk(listing, c)
    {
      var subject := listing[n].name;
      var files := FilesFor(dict, subject);
      if |files| >= ChosenCount {
        var chosen := files[..ChosenCount];
        var localMated := MatedComparisons(subject, chosen);
        MatedPairs(subject, chosen);
        var others := Others(pool, subject);
        OthersMembers(pool, subject);
        var shuffled := Shuffle(others);
        assert |shuffled| == |multiset(shuffled)| == |multiset(others)| == |others|;
        var chosenNonmated := shuffled[..Min(|localMated|, |shuffled|)];
        var localNonmated := NonMatedComparisons(subject, chosen[0].name, chosenNonmated);
        forall c | c in localNonmated ensures NonMatedOk(listing, c) {
          var k :| 0 <= k < |localNonmated| && localNonmated[k] == c;
          assert chosenNonmated[k] in multiset(others);
        }
        mated := mated + localMated;
        nonmated := nonmated + localNonmated;
      }
      n := n + 1;
    }
    Totals(listing, |listing|);
  }
}
