/**
 * The on-disk databases, with paths abstracted away: a database folder holds one
 * folder per subject, each holding `.npy` files of feature vectors. A share
 * store maps (subject, file name) to the vector saved at
 * `<store>/<subject>/<file name>`.
 */
module Storage {
  import opened Shares

  datatype Key = Key(subject: string, file: string)

  /** A file in a subject folder, with the vector `np.load` would read from it. */
  datatype FileEntry = FileEntry(name: string, content: Vector)

  /** An entry of a database folder: a subject folder, or anything else. */
  datatype DirEntry =
    | Folder(name: string, files: seq<FileEntry>)
    | PlainFile(name: string)

  predicate EndsWithNpy(name: string)
  {
    |name| >= 4 && name[|name| - 4..] == ".npy"
  }

  /** Whether `glob.glob` matches a file against `*.npy`: a leading `*` does not match a leading dot. */
  predicate GlobMatchesNpy(name: string)
  {
    EndsWithNpy(name) && name[0] != '.'
  }

  /** The template a server loads for an identifier: `<id>/<id>d0.npy`. */
  function TemplateKey(id: string): Key
  {
    Key(id, id + "d0.npy")
  }

  /** A share database being written: the subject folders made so far and the saved vectors. */
  class ShareStore {
    var folders: set<string>
    var files: map<Key, Vector>

    constructor ()
      ensures folders == {} && files == map[]
    {
      folders, files := {}, map[];
    }

    /** `mkdir(parents=True, exist_ok=True)` of a subject folder. */
    method MakeFolder(subject: string)
      modifies this`folders
      ensures folders == old(folders) + {subject}
    {
      folders := folders + {subject};
    }

    /** `np.save` into an existing subject folder; an existing file is overwritten. */
    method Save(key: Key, v: Vector)
      requires key.subject in folders
      modifies this`files
      ensures files == old(files)[key := v]
    {
      files := files[key := v];
    }

    /** `np.load` of a saved file. */
    method Load(key: Key) returns (v: Vector)
      requires key in files
      ensures v == files[key]
    {
      v := files[key];
    }
  }
}
