/**
 * The local disk as the adapters see it through `fs`: the size of every
 * file and the set of directories, each keyed by the path the operating
 * system resolves, where a run of '/' acts as a single separator.
 */
module Files {
  import Text

  datatype Disk = Disk(files: map<string, nat>, dirs: set<string>)

  /** The resolved form of `p`: every run of '/' squeezed to one. */
  function Key(p: string): (k: string)
    ensures |k| <= |p|
  {
    if |p| >= 2 && p[0] == '/' && p[1] == '/' then Key(p[1..])
    else if p == [] then ""
    else [p[0]] + Key(p[1..])
  }

  /** `fs.existsSync(path)`: a file or a directory is there. */
  predicate Exists(d: Disk, path: string) {
    Key(path) in d.files || Key(path) in d.dirs
  }

  /** `checkIfDirectoryExists(dir)`: anything at that path, file or directory. */
  predicate DirectoryExists(d: Disk, dir: string)
    ensures DirectoryExists(d, dir) <==> Exists(d, dir)
  {
    Exists(d, dir)
  }

  /**
   * `checkIfElementExists(dir, name)`: the file `dir/name` is present and its
   * size is not zero, so an empty leftover of an aborted download counts as
   * absent and is fetched again.
   */
  predicate ElementExists(d: Disk, dir: string, name: string)
    ensures ElementExists(d, dir, name) ==> Exists(d, dir + "/" + name)
    ensures Key(dir + "/" + name) in d.files && d.files[Key(dir + "/" + name)] == 0 ==> !ElementExists(d, dir, name)
  {
    var k := Key(dir + "/" + name);
    k in d.files && d.files[k] > 0
  }

  /** Writing `size` bytes at `path` replaces whatever file was there. */
  function Write(d: Disk, path: string, size: nat): Disk {
    d.(files := d.files[Key(path) := size])
  }

  /** `fs.mkdirSync(path)`. */
  function MakeDir(d: Disk, path: string): Disk {
    d.(dirs := d.dirs + {Key(path)})
  }

  /** A file written under `dir/name` is afterwards reported present exactly when it is not empty. */
  lemma WrittenFileExists(d: Disk, dir: string, name: string, size: nat)
    ensures ElementExists(Write(d, dir + "/" + name, size), dir, name) <==> size > 0
    ensures DirectoryExists(MakeDir(d, dir), dir)
  {
  }

  /** Gluing two paths squeezes each side separately unless a '/' ends one and starts the other. */
  lemma {:induction false} KeyAppend(a: string, b: string)
    requires !(Text.EndsWith(a, "/") && Text.StartsWith(b, "/"))
    ensures Key(a + b) == Key(a) + Key(b)
  {
    var ab := a + b;
    if a == [] {
      assert ab == b;
    } else if |a| == 1 {
      assert ab[1..] == b;
      if b != [] && a[0] == '/' {
        assert a[|a| - 1..] == "/";
        assert b[..1] == [b[0]];
      }
      assert Key(ab) == [a[0]] + Key(b);
      assert a[1..] == [];
    } else {
      assert ab[1..] == a[1..] + b;
      assert ab[0] == a[0] && ab[1] == a[1];
      assert a[1..][|a[1..]| - 1..] == a[|a| - 1..];
      KeyAppend(a[1..], b);
      if a[0] == '/' && a[1] == '/' {
        assert Key(ab) == Key(ab[1..]);
      } else {
        assert Key(ab) == [a[0]] + Key(ab[1..]);
      }
    }
  }


  /** A second '/' after a directory that already ends in '/' resolves to the same place. */
  lemma {:induction false} KeyExtraSlash(a: string, b: string)
    requires Text.EndsWith(a, "/")
    ensures Key(a + "/" + b) == Key(a + b)
  {
    if |a| == 1 {
      assert a + "/" + b == ['/', '/'] + b;
      assert (a + "/" + b)[1..] == a + b;
    } else {
      assert (a + "/" + b)[1..] == a[1..] + "/" + b;
      assert (a + b)[1..] == a[1..] + b;
      assert a[1..][|a[1..]| - 1..] == a[|a| - 1..];
      KeyExtraSlash(a[1..], b);
    }
  }

  /**
   * Whether a separator between a directory and a name matters: it does not
   * when the directory already ends in '/', and otherwise the two spellings
   * name different files (the one without it glues the name onto the
   * directory's last component).
   */
  lemma SeparatorMatters(dir: string, name: string)
    ensures Text.EndsWith(dir, "/") ==> Key(dir + "/" + name) == Key(dir + name)
    ensures !Text.EndsWith(dir, "/") && name != [] && name[0] != '/' ==> Key(dir + "/" + name) != Key(dir + name)
  {
    if Text.EndsWith(dir, "/") {
      KeyExtraSlash(dir, name);
    } else if name != [] && name[0] != '/' {
      assert Text.StartsWith("/" + name, "/");
      KeyAppend(dir, "/" + name);
      assert !Text.StartsWith(name, "/");
      KeyAppend(dir, name);
      assert dir + "/" + name == dir + ("/" + name);
      assert ("/" + name)[1..] == name;
      assert Key("/" + name) == "/" + Key(name);
    }
  }
}
