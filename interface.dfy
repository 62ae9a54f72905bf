/**
  The capability set shared by the pool and its decorators (get a path, put
  it back, remove the root directory), the two decorators, and the helper
  that turns a fresh path into a file on disk.

  The capability set is open in the Go package; here it is closed over the
  implementations the package itself provides: the pool, `WithExtension`
  and `KeepAlive`. Each decorator holds the provider it wraps and forwards
  to it what it does not override.
*/
module Interface {

  import opened Wrappers
  import opened Paths
  import opened Errors
  import opened Fs
  import opened Temporary

  datatype Like =
    | Pool(files: Files)
    /** Makes every path it hands out carry `extension`. */
    | WithExtension(inner: Like, extension: string)
    /** Forwards everything except `Remove`, which it turns into a success. */
    | KeepAlive(inner: Like)
  {
    /** The pool at the bottom of the stack of decorators. */
    function Base(): Files
    {
      match this
      case Pool(f) => f
      case WithExtension(inner, _) => inner.Base()
      case KeepAlive(inner) => inner.Base()
    }
  }

  /** What a `Get` on a provider returns and what the disk looks like afterwards. */
  datatype GetOutcome = GetOutcome(result: Result<Path, Error>, disk: Disk)

  /** The part of `WithExtension.Get` after the wrapped provider's `Get`
      produced `got`: keep an error or a path that has the extension, and
      otherwise append the extension and touch that file. */
  function ExtensionStep(got: GetOutcome, ext: string, faults: set<Fault>): (out: GetOutcome)
    ensures got.disk.files <= out.disk.files && out.disk.dirs == got.disk.dirs
    ensures got.result.Err? ==> out == got
    ensures out.result.Ok? && out.result != got.result ==>
              got.result.Ok? && out.result.value == AddExt(got.result.value, ext) && out.result.value in out.disk.files
  {
    if got.result.Err? || ext == Ext(got.result.value) then got
    else
      var withExt := AddExt(got.result.value, ext);
      match Attempt(faults, TouchFile, withExt)
      case Some(e) => GetOutcome(Err(e), got.disk)
      case None => GetOutcome(Ok(withExt), AddFile(got.disk, withExt))
  }

  /** What a provider's `Get` makes of the path `issued` that its base pool
      handed out, on the disk `d`. This is all a `Get` does beyond the pool step. */
  function Decorate(l: Like, issued: Path, d: Disk, faults: set<Fault>): (out: GetOutcome)
    ensures d.files <= out.disk.files && out.disk.dirs == d.dirs
    ensures out.result.Ok? && out.result.value != issued ==> out.result.value in out.disk.files
  {
    match l
    case Pool(_) => GetOutcome(Ok(issued), d)
    case KeepAlive(inner) => Decorate(inner, issued, d, faults)
    case WithExtension(inner, ext) => ExtensionStep(Decorate(inner, issued, d, faults), ext, faults)
  }

  /** Whether `Remove` on the provider reaches the base pool's directory. */
  function RemovesRoot(l: Like): bool
  {
    match l
    case Pool(_) => true
    case WithExtension(inner, _) => RemovesRoot(inner)
    case KeepAlive(_) => false
  }

  /** What a `Remove` on the provider reports and leaves on the disk. */
  function RemoveOutcome(l: Like, d: Disk, faults: set<Fault>): (out: (Option<Error>, Disk))
    ensures !RemovesRoot(l) ==> out == (None, d)
    ensures RemovesRoot(l) ==> out.0 == Attempt(faults, RemoveDir, l.Base().RootDir)
    ensures RemovesRoot(l) && out.0.None? ==> l.Base().RootDir !in out.1.dirs
    ensures RemovesRoot(l) && out.0.None? ==> out.1 == RemoveTree(d, l.Base().RootDir)
    ensures out.0.Some? ==> out.1 == d
  {
    if !RemovesRoot(l) then (None, d)
    else
      var err := Attempt(faults, RemoveDir, l.Base().RootDir);
      (err, if err.None? then RemoveTree(d, l.Base().RootDir) else d)
  }

  /** Gets a path from the provider. `issued` is the path its base pool
      handed out; the pool changes exactly as a plain `Get` on it would. */
  method Get(l: Like, fs: FileSystem) returns (r: Result<Path, Error>, ghost issued: Path)
    modifies l.Base(), fs
    ensures GetStep(l.Base().draws, old(l.Base().State()), l.Base().State(), issued)
    ensures GetOutcome(r, fs.disk) == Decorate(l, issued, old(fs.disk), fs.faults)
    decreases l, 0
  {
    match l
    case Pool(f) =>
      var vf, _ := f.Get();
      r, issued := Ok(vf), vf;
    case KeepAlive(inner) =>
      r, issued := Get(inner, fs);
    case WithExtension(inner, ext) =>
      r, issued := ExtensionGet(inner, ext, fs);
  }

  /** `Get` of a `WithExtension`: the wrapped provider's path, with the
      extension appended and that file touched unless it already has it. */
  method ExtensionGet(inner: Like, ext: string, fs: FileSystem) returns (r: Result<Path, Error>, ghost issued: Path)
    modifies inner.Base(), fs
    ensures GetStep(inner.Base().draws, old(inner.Base().State()), inner.Base().State(), issued)
    ensures GetOutcome(r, fs.disk) == Decorate(WithExtension(inner, ext), issued, old(fs.disk), fs.faults)
    decreases inner, 1
  {
    r, issued := Get(inner, fs);
    ghost var pool := inner.Base().State();
    ghost var got := Decorate(inner, issued, old(fs.disk), fs.faults);
    assert got == GetOutcome(r, fs.disk);
    if r.Err? || ext == Ext(r.value) {
      return;
    }
    var withExt := AddExt(r.value, ext);
    var err := fs.Touch(withExt);
    assert inner.Base().State() == pool;
    if err.Some? {
      r := Err(err.value);
    } else {
      r := Ok(withExt);
    }
    assert GetOutcome(r, fs.disk) == match Attempt(fs.faults, TouchFile, withExt)
      case Some(e) => GetOutcome(Err(e), got.disk)
      case None => GetOutcome(Ok(withExt), AddFile(got.disk, withExt));
  }

  /** Puts a path back; every decorator forwards this to the base pool. */
  method Put(l: Like, p: Path)
    modifies l.Base()
    ensures l.Base().State() == Release(old(l.Base().State()), p)
    decreases l
  {
    match l
    case Pool(f) => f.Put(p);
    case WithExtension(inner, _) => Put(inner, p);
    case KeepAlive(inner) => Put(inner, p);
  }

  /** Removes the base pool's directory, unless a `KeepAlive` stands in the way. */
  method Remove(l: Like, fs: FileSystem) returns (err: Option<Error>)
    modifies fs
    ensures (err, fs.disk) == RemoveOutcome(l, old(fs.disk), fs.faults)
    decreases l
  {
    match l
    case Pool(f) => err := f.Remove(fs);
    case WithExtension(inner, _) => err := Remove(inner, fs);
    case KeepAlive(_) => err := None;
  }

  // --------------------------------------------------------------- Create

  /** What a `Create` returns and what the disk looks like afterwards. */
  datatype CreateOutcome = CreateOutcome(result: Result<ValidFile, Error>, disk: Disk)

  /** What `Create` makes of the outcome `got` of the provider's `Get`. */
  function Materialize(got: GetOutcome, faults: set<Fault>): (out: CreateOutcome)
    ensures got.disk.files <= out.disk.files && out.disk.dirs == got.disk.dirs
    ensures got.result.Err? ==> out == CreateOutcome(Err(got.result.error), got.disk)
    ensures out.result.Ok? ==> got.result.Ok? && out.result.value.path == got.result.value && got.result.value in out.disk.files
  {
    match got.result
    case Err(e) => CreateOutcome(Err(e), got.disk)
    case Ok(p) =>
      match Attempt(faults, CreateFile, p)
      case Some(cause) => CreateOutcome(Err(CreateFail(p, cause)), got.disk)
      case None =>
        var d := AddFile(got.disk, p);
        if Fault(StatFile, p) in faults then CreateOutcome(Err(PathError(StatFile, p)), d)
        else match Attempt(faults, CloseFile, p)
          case Some(e) => CreateOutcome(Err(e), d)
          case None => CreateOutcome(Ok(ValidFile(p)), d)
  }

  /** Gets a path from the provider and creates the file behind it. */
  method Create(l: Like, fs: FileSystem) returns (r: Result<ValidFile, Error>, ghost issued: Path)
    modifies l.Base(), fs
    ensures GetStep(l.Base().draws, old(l.Base().State()), l.Base().State(), issued)
    ensures CreateOutcome(r, fs.disk) == Materialize(Decorate(l, issued, old(fs.disk), fs.faults), fs.faults)
  {
    var file;
    file, issued := Get(l, fs);
    ghost var pool := l.Base().State();
    if file.Err? {
      r := Err(file.error);
      return;
    }
    var err := fs.Create(file.value);
    if err.Some? {
      r := Err(CreateFail(file.value, err.value));
      return;
    }
    r := fs.ToValidFile(file.value);
    if r.Err? {
      return;
    }
    err := fs.Close(file.value);
    if err.Some? {
      r := Err(err.value);
    }
    assert l.Base().State() == pool;
  }

  // ------------------------------------------------------ the decorators' laws

  /** `WithExtension` passes on an error of the provider it wraps unchanged and
      touches nothing then. */
  lemma WithExtensionKeepsInnerError(inner: Like, ext: string, issued: Path, d: Disk, faults: set<Fault>)
    requires Decorate(inner, issued, d, faults).result.Err?
    ensures Decorate(WithExtension(inner, ext), issued, d, faults) == Decorate(inner, issued, d, faults)
  {
  }

  /** A path that already has the extension comes back unchanged, with no touch. */
  lemma WithExtensionKeepsMatching(inner: Like, ext: string, issued: Path, d: Disk, faults: set<Fault>)
    requires Decorate(inner, issued, d, faults).result.Ok?
    requires Ext(Decorate(inner, issued, d, faults).result.value) == ext
    ensures Decorate(WithExtension(inner, ext), issued, d, faults) == Decorate(inner, issued, d, faults)
  {
  }

  /** Any other path gets the extension appended and that file touched; a
      failing touch is reported as it is, with the disk as the inner `Get` left it. */
  lemma WithExtensionAppends(inner: Like, ext: string, issued: Path, d: Disk, faults: set<Fault>)
    requires Decorate(inner, issued, d, faults).result.Ok?
    requires Ext(Decorate(inner, issued, d, faults).result.value) != ext
    ensures var got := Decorate(inner, issued, d, faults);
            var withExt := AddExt(got.result.value, ext);
            var out := Decorate(WithExtension(inner, ext), issued, d, faults);
            if Fault(TouchFile, withExt) in faults
            then out == GetOutcome(Err(PathError(TouchFile, withExt)), got.disk)
            else out == GetOutcome(Ok(withExt), AddFile(got.disk, withExt)) && withExt in out.disk.files
  {
  }

  /** The extension step only ever returns paths with the extension. */
  lemma ExtensionStepHasExt(got: GetOutcome, ext: string, faults: set<Fault>)
    requires PlainName(ext)
    requires ExtensionStep(got, ext, faults).result.Ok?
    ensures Ext(ExtensionStep(got, ext, faults).result.value) == ext
  {
    if ext != Ext(got.result.value) {
      ExtOfAddExt(got.result.value, ext);
    }
  }

  /** Every path a `WithExtension` hands out carries its extension. */
  lemma WithExtensionResultHasExt(inner: Like, ext: string, issued: Path, d: Disk, faults: set<Fault>)
    requires PlainName(ext)
    requires Decorate(WithExtension(inner, ext), issued, d, faults).result.Ok?
    ensures Ext(Decorate(WithExtension(inner, ext), issued, d, faults).result.value) == ext
  {
    ExtensionStepHasExt(Decorate(inner, issued, d, faults), ext, faults);
  }

  /** On a bare pool a fresh name never has a non-empty extension, so
      `WithExtension` appends it and the file that results exists on disk. */
  lemma WithExtensionOnFreshPath(f: Files, ext: string, n: nat, d: Disk, faults: set<Fault>)
    requires ext != ""
    requires Fault(TouchFile, AddExt(FreshPath(f.RootDir, n), ext)) !in faults
    ensures var out := Decorate(WithExtension(Pool(f), ext), FreshPath(f.RootDir, n), d, faults);
            out.result == Ok(AddExt(FreshPath(f.RootDir, n), ext)) && out.result.value in out.disk.files
  {
    FreshPathHasNoExt(f.RootDir, n);
  }

  /** `KeepAlive` changes nothing about `Get`, and its `Remove` always succeeds
      and removes nothing, whatever it wraps. */
  lemma KeepAliveLaws(inner: Like, issued: Path, d: Disk, faults: set<Fault>)
    ensures Decorate(KeepAlive(inner), issued, d, faults) == Decorate(inner, issued, d, faults)
    ensures RemoveOutcome(KeepAlive(inner), d, faults) == (None, d)
    ensures KeepAlive(inner).Base() == inner.Base()
  {
  }

  /** Removing through a provider that reaches the pool leaves nothing below
      the root directory. */
  lemma RemoveClearsRoot(l: Like, d: Disk, faults: set<Fault>)
    requires RemovesRoot(l)
    requires Fault(RemoveDir, l.Base().RootDir) !in faults
    ensures var out := RemoveOutcome(l, d, faults);
            out.0 == None && l.Base().RootDir !in out.1.dirs &&
            forall p :: p in out.1.files ==> !Under(p, l.Base().RootDir)
  {
  }

  /** The decorators only ever add files: a `Get` removes nothing from disk. */
  lemma GetNeverDeletes(l: Like, issued: Path, d: Disk, faults: set<Fault>)
    ensures d.files <= Decorate(l, issued, d, faults).disk.files
  {
  }

  // ---------------------------------------------------------- Create's laws

  /** An error of the provider's `Get` comes back unchanged, and `Create`
      creates no file then. */
  lemma CreatePassesGetError(got: GetOutcome, faults: set<Fault>)
    requires got.result.Err?
    ensures Materialize(got, faults) == CreateOutcome(Err(got.result.error), got.disk)
  {
  }

  /** A failing creation becomes a `CreateFail` that names the path and wraps
      the cause; the disk stays as it was. */
  lemma CreateFailWraps(got: GetOutcome, faults: set<Fault>)
    requires got.result.Ok? && Fault(CreateFile, got.result.value) in faults
    ensures var out := Materialize(got, faults);
            out.disk == got.disk &&
            out.result.Err? && out.result.error.CreateFail? &&
            out.result.error.filePath == got.result.value &&
            out.result.error.Unwrap() == PathError(CreateFile, got.result.value)
  {
  }

  /** A successful `Create` hands back exactly the path `Get` produced, and
      that file exists afterwards. */
  lemma CreateSucceeds(got: GetOutcome, faults: set<Fault>)
    requires Materialize(got, faults).result.Ok?
    ensures got.result.Ok?
    ensures var out := Materialize(got, faults);
            out.result.value.path == got.result.value &&
            got.result.value in out.disk.files && got.disk.files <= out.disk.files
  {
  }

  /** When `Get` produced a path and nothing fails on it, `Create` succeeds
      with a handle for exactly that path. */
  lemma MaterializeSucceeds(got: GetOutcome, faults: set<Fault>)
    requires got.result.Ok?
    requires forall op :: Fault(op, got.result.value) !in faults
    ensures Materialize(got, faults).result == Ok(ValidFile(got.result.value))
    ensures Materialize(got, faults).disk == AddFile(got.disk, got.result.value)
  {
  }

  /** Every file that `Create` makes through a `WithExtension` exists and
      carries the extension. */
  lemma CreateWithExtension(inner: Like, ext: string, issued: Path, d: Disk, faults: set<Fault>)
    requires PlainName(ext)
    requires Materialize(Decorate(WithExtension(inner, ext), issued, d, faults), faults).result.Ok?
    ensures var out := Materialize(Decorate(WithExtension(inner, ext), issued, d, faults), faults);
            Ext(out.result.value.path) == ext && out.result.value.path in out.disk.files
  {
    var got := Decorate(WithExtension(inner, ext), issued, d, faults);
    CreateSucceeds(got, faults);
    WithExtensionResultHasExt(inner, ext, issued, d, faults);
  }
}
