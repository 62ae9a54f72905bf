/**
  The two ways the package's own tests drive the pool, as clients that rely
  on nothing but the operations' contracts.
*/
module Usage {

  import opened Wrappers
  import opened Paths
  import opened Errors
  import opened Fs
  import opened Temporary
  import opened Interface

  /** A `Create` never deletes a file. */
  lemma CreateNeverDeletes(l: Like, issued: Path, d: Disk, faults: set<Fault>)
    ensures d.files <= Materialize(Decorate(l, issued, d, faults), faults).disk.files
  {
  }

  /** One `Create` through a `WithExtension`, as the loop below needs it: no
      file disappears, and a file made exists and has the extension. */
  lemma ExtensionCreateStep(inner: Like, ext: string, issued: Path, d: Disk, faults: set<Fault>,
                            r: Result<ValidFile, Error>, d': Disk)
    requires PlainName(ext)
    requires CreateOutcome(r, d') == Materialize(Decorate(WithExtension(inner, ext), issued, d, faults), faults)
    ensures d.files <= d'.files
    ensures r.Ok? ==> Ext(r.value.path) == ext && r.value.path in d'.files
  {
    CreateNeverDeletes(WithExtension(inner, ext), issued, d, faults);
    if r.Ok? {
      CreateWithExtension(inner, ext, issued, d, faults);
    }
  }

  /** Creates a file `n` times, each time checking that it exists (returning the
      error if it does not) and putting it back, and then removes the pool. Since every file is put back before
      the next `Create`, the same path is reused throughout: the whole run
      takes at most one random number. */
  method CreateAndRelease(f: Files, fs: FileSystem, n: nat) returns (err: Option<Error>)
    requires f.files == {}
    modifies f, fs
    ensures f.drawn <= old(f.drawn) + 1 && |f.files| <= 1
    ensures fs.faults == {} ==> err.None?
    ensures err.None? ==> f.RootDir !in fs.disk.dirs
    ensures err.None? ==> forall p :: p in fs.disk.files ==> !Under(p, f.RootDir)
  {
    var i := 0;
    while i < n
      invariant |f.files| <= 1
      invariant f.files == {} ==> f.drawn == old(f.drawn)
      invariant f.drawn <= old(f.drawn) + 1
    {
      var r;
      ghost var issued;
      ghost var d0 := fs.disk;
      r, issued := Create(Pool(f), fs);
      if r.Err? {
        return Some(r.error);
      }
      var check := fs.ToValidFile(r.value.path);
      if check.Err? {
        return Some(check.error);
      }
      f.Put(r.value.path);
      i := i + 1;
    }
    err := f.Remove(fs);
  }

  /** Creates `n` files through a `WithExtension` on a fresh pool, putting them
      all back only at the end (the puts are deferred). Every file made exists
      and carries the extension, and in the end exactly those files are
      available for reuse. */
  method CreateWithExtensionDeferred(f: Files, fs: FileSystem, ext: string, n: nat)
    returns (made: seq<Path>, err: Option<Error>)
    requires PlainName(ext)
    requires f.files == {}
    modifies f, fs
    ensures fs.faults == {} ==> err.None?
    ensures err.None? ==> |made| == n
    ensures forall k :: 0 <= k < |made| ==> Ext(made[k]) == ext && made[k] in fs.disk.files
    ensures f.files == set p | p in made
  {
    var w := WithExtension(Pool(f), ext);
    assert w.Base() == f;
    made, err := [], None;
    while |made| < n
      invariant |made| <= n && err == None
      invariant f.files == {}
      invariant forall k :: 0 <= k < |made| ==> Ext(made[k]) == ext && made[k] in fs.disk.files
      decreases n - |made|
    {
      var r;
      ghost var issued;
      ghost var d0 := fs.disk;
      r, issued := Create(w, fs);
      ExtensionCreateStep(Pool(f), ext, issued, d0, fs.faults, r, fs.disk);
      if r.Err? {
        err := Some(r.error);
        break;
      }
      made := made + [r.value.path];
    }
    PutAll(w, made);
  }

  /** The deferred `Put` calls at the end of a run: every path goes back. */
  method PutAll(l: Like, paths: seq<Path>)
    modifies l.Base()
    ensures l.Base().State() == old(l.Base().State()).(avail := old(l.Base().files) + set p | p in paths)
  {
    var j := 0;
    while j < |paths|
      invariant j <= |paths|
      invariant l.Base().State() == old(l.Base().State()).(avail := old(l.Base().files) + set p | p in paths[..j])
    {
      Put(l, paths[j]);
      assert paths[..j + 1] == paths[..j] + [paths[j]];
      j := j + 1;
    }
    assert paths[..j] == paths;
  }
}
