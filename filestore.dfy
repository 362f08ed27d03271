/** The storage directory as the core sees it: regular files by path. */
module FileStore {
  import opened Common

  /** Writing a path twice leaves what the second write wrote. */
  lemma Rewritten(m: map<string, seq<byte>>, path: string, a: seq<byte>, b: seq<byte>)
    ensures m[path := a][path := b] == m[path := b]
  {
  }

  class FileSystem {
    /** Regular files: path to contents. */
    var files: map<string, seq<byte>>
    /** Files whose removal fails (permissions, I/O); a fact about the host. */
    var undeletable: set<string>

    constructor (files: map<string, seq<byte>>, undeletable: set<string>)
      ensures this.files == files && this.undeletable == undeletable
    {
      this.files := files;
      this.undeletable := undeletable;
    }

    /** `Path.is_file()` / `Path.exists()` on a regular file. */
    predicate IsFile(path: string)
      reads this
    {
      path in files
    }

    /** `open(path, "wb")`: creates the file, or truncates it. */
    method Create(path: string)
      modifies this`files
      ensures files == old(files)[path := []]
    {
      files := files[path := []];
    }

    /** `f.write(chunk)` on a file opened for writing. */
    method Append(path: string, chunk: seq<byte>)
      requires path in files
      modifies this`files
      ensures files == old(files)[path := old(files)[path] + chunk]
    {
      files := files[path := files[path] + chunk];
    }

    /** `f.read(k)` on `path` opened for reading, `offset` bytes in: the next
        bytes, `k` of them unless the file ends first. */
    method ReadAt(path: string, offset: nat, k: nat) returns (chunk: seq<byte>)
      requires path in files && offset <= |files[path]|
      ensures chunk == files[path][offset..offset + Min(k, |files[path]| - offset)]
    {
      chunk := files[path][offset..offset + Min(k, |files[path]| - offset)];
    }

    /** `os.replace(src, dst)`: `dst` now holds what `src` held, and `src` is gone. */
    method Replace(src: string, dst: string)
      requires src in files
      modifies this`files
      ensures files == (old(files) - {src})[dst := old(files)[src]]
    {
      files := (files - {src})[dst := files[src]];
    }

    /** `Path.unlink()` on a regular file: fails, leaving the file, when the host refuses. */
    method Unlink(path: string) returns (ok: bool)
      requires path in files
      modifies this`files
      ensures ok == (path !in undeletable)
      ensures files == if ok then old(files) - {path} else old(files)
    {
      ok := path !in undeletable;
      if ok {
        files := files - {path};
      }
    }
  }
}
