/**
 * The database splitter: for every subject folder of the input database it makes
 * the subject's folder in both share databases, and for each `.npy` template in
 * it saves the share `t1 = template - s2` under server 1 and the random share
 * `t2 = s2` under server 2, under the same subject and file name, then loads
 * both back and checks that they add up to the template.
 */
module Splitter {
  import opened Shares
  import opened Storage

  /** The templates of one subject folder, keyed as they are saved; a later file overrides an earlier one. */
  function FolderTemplates(subject: string, files: seq<FileEntry>): map<Key, Vector>
  {
    if files == [] then map[]
    else
      var f := files[|files| - 1];
      var m := FolderTemplates(subject, files[..|files| - 1]);
      if EndsWithNpy(f.name) then m[Key(subject, f.name) := f.content] else m
  }

  /** The templates of the whole input database; plain files at the top level are skipped. */
  function Templates(input: seq<DirEntry>): map<Key, Vector>
  {
    if input == [] then map[]
    else
      var e := input[|input| - 1];
      var m := Templates(input[..|input| - 1]);
      if e.Folder? then m + FolderTemplates(e.name, e.files) else m
  }

  /** The subject folders of the input database. */
  function SubjectFolders(input: seq<DirEntry>): set<string>
  {
    set k | 0 <= k < |input| && input[k].Folder? :: input[k].name
  }

  /**
   * The key of a template is a `.npy` file of a subject folder of the input, and
   * every such file has a key.
   */
  lemma {:induction false} TemplateKeys(input: seq<DirEntry>)
    ensures forall key :: key in Templates(input) ==> key.subject in SubjectFolders(input) && EndsWithNpy(key.file)
    ensures forall k, f :: 0 <= k < |input| && input[k].Folder? && f in input[k].files && EndsWithNpy(f.name) ==>
      Key(input[k].name, f.name) in Templates(input)
  {
    if input != [] {
      var init := input[..|input| - 1];
      TemplateKeys(init);
      assert SubjectFolders(init) <= SubjectFolders(input) by {
        forall s | s in SubjectFolders(init) ensures s in SubjectFolders(input) {
          var k :| 0 <= k < |init| && init[k].Folder? && init[k].name == s;
          assert input[k] == init[k];
        }
      }
      var e := input[|input| - 1];
      if e.Folder? {
        FolderTemplateKeys(e.name, e.files);
        assert e.name in SubjectFolders(input);
      }
      forall k, f | 0 <= k < |input| && input[k].Folder? && f in input[k].files && EndsWithNpy(f.name)
        ensures Key(input[k].name, f.name) in Templates(input)
      {
        if k < |init| {
          assert init[k] == input[k];
        }
      }
    }
  }

  lemma {:induction false} FolderTemplateKeys(subject: string, files: seq<FileEntry>)
    ensures forall key :: key in FolderTemplates(subject, files) ==> key.subject == subject && EndsWithNpy(key.file)
    ensures forall f :: f in files && EndsWithNpy(f.name) ==> Key(subject, f.name) in FolderTemplates(subject, files)
  {
    if files != [] {
      var init := files[..|files| - 1];
      FolderTemplateKeys(subject, init);
      assert files == init + [files[|files| - 1]];
    }
  }

  /**
   * Two share maps mirror the templates `t` over the maps `base1` and `base2`
   * they started from: both gained exactly t's keys, the two shares of each
   * template have its length and add up to it, and every other entry is as it was.
   */
  ghost predicate Mirrors(files1: map<Key, Vector>, files2: map<Key, Vector>,
                          base1: map<Key, Vector>, base2: map<Key, Vector>, t: map<Key, Vector>)
  {
    && files1.Keys == base1.Keys + t.Keys
    && files2.Keys == base2.Keys + t.Keys
    && (forall k :: k in t ==> |files1[k]| == |t[k]| && |files2[k]| == |t[k]| && Add(files1[k], files2[k]) == t[k])
    && (forall k :: k in base1 && k !in t ==> files1[k] == base1[k])
    && (forall k :: k in base2 && k !in t ==> files2[k] == base2[k])
  }

  lemma MirrorsCompose(files1: map<Key, Vector>, files2: map<Key, Vector>, mid1: map<Key, Vector>, mid2: map<Key, Vector>,
                       base1: map<Key, Vector>, base2: map<Key, Vector>, t: map<Key, Vector>, u: map<Key, Vector>)
    requires Mirrors(mid1, mid2, base1, base2, t) && Mirrors(files1, files2, mid1, mid2, u)
    ensures Mirrors(files1, files2, base1, base2, t + u)
  {
  }

  /**
   * The inner `for` loop: every `.npy` file of one subject folder is split with a
   * fresh random share, both shares are saved, loaded back and checked. The
   * returned warnings are the names whose check failed.
   */
  method SplitFolder(subject: string, files: seq<FileEntry>, store1: ShareStore, store2: ShareStore)
    returns (warnings: seq<string>)
    requires store1 != store2 && subject in store1.folders && subject in store2.folders
    modifies store1`files, store2`files
    ensures Mirrors(store1.files, store2.files, old(store1.files), old(store2.files), FolderTemplates(subject, files))
    ensures warnings == []
  {
    warnings := [];
    var m := 0;
    while m < |files|
      invariant m <= |files|
      invariant Mirrors(store1.files, store2.files, old(store1.files), old(store2.files), FolderTemplates(subject, files[..m]))
      invariant warnings == []
    {
      assert files[..m + 1][..m] == files[..m];
      var f := files[m];
      if EndsWithNpy(f.name) {
        var template := f.content;
        var s2 := RandomShare(|template|);
        var (t1, t2) := Split(template, s2);
        var key := Key(subject, f.name);
        store1.Save(key, t1);
        store2.Save(key, t2);
        var t1Loaded := store1.Load(key);
        var t2Loaded := store2.Load(key);
        if Add(t1Loaded, t2Loaded) != template {
          warnings := warnings + [f.name];
        }
      }
      m := m + 1;
    }
    assert files[..m] == files;
  }

  /**
   * The outer `for` loop over the input database: both share databases gain a
   * folder per subject and exactly the input's templates as keys, the two
   * shares saved under a key add up to its template, and no mismatch warning
   * is ever printed.
   */
  method SplitDatabase(input: seq<DirEntry>, store1: ShareStore, store2: ShareStore) returns (warnings: seq<string>)
    requires store1 != store2
    modifies store1, store2
    ensures store1.folders == old(store1.folders) + SubjectFolders(input)
    ensures store2.folders == old(store2.folders) + SubjectFolders(input)
    ensures Mirrors(store1.files, store2.files, old(store1.files), old(store2.files), Templates(input))
    ensures warnings == []
  {
    warnings := [];
    var n := 0;
    while n < |input|
      invariant n <= |input|
      invariant store1.folders == old(store1.folders) + SubjectFolders(input[..n])
      invariant store2.folders == old(store2.folders) + SubjectFolders(input[..n])
      invariant Mirrors(store1.files, store2.files, old(store1.files), old(store2.files), Templates(input[..n]))
      invariant warnings == []
    {
      var prefix := input[..n + 1];
      assert prefix[..n] == input[..n];
      assert SubjectFolders(prefix) == SubjectFolders(input[..n]) + (if input[n].Folder? then {input[n].name} else {}) by {
        forall s | s in SubjectFolders(prefix)
          ensures s in SubjectFolders(input[..n]) || (input[n].Folder? && s == input[n].name)
        {
          var k :| 0 <= k < n + 1 && prefix[k].Folder? && prefix[k].name == s;
          if k < n {
            assert input[..n][k] == prefix[k];
          }
        }
        forall s | s in SubjectFolders(input[..n]) ensures s in SubjectFolders(prefix) {
          var k :| 0 <= k < n && input[..n][k].Folder? && input[..n][k].name == s;
          assert prefix[k] == input[..n][k];
        }
      }
      var e := input[n];
      if e.Folder? {
        store1.MakeFolder(e.name);
        store2.MakeFolder(e.name);
        ghost var mid1, mid2 := store1.files, store2.files;
        var more := SplitFolder(e.name, e.files, store1, store2);
        MirrorsCompose(store1.files, store2.files, mid1, mid2, old(store1.files), old(store2.files),
                       Templates(input[..n]), FolderTemplates(e.name, e.files));
        warnings := warnings + more;
      }
      n := n + 1;
    }
    assert input[..n] == input;
  }
}
