# A pool of reusable temporary files, modelled in Dafny

The Go package `tempfiles` hands out temporary file paths inside one root
directory. A path that is put back goes into the pool's available set, and
a later `Get` reuses it before it names a new file. A fresh name is the
root directory joined with the decimal rendering of the next random
number. `Remove` deletes the root directory and everything in it.

Around the pool sit:

- the capability set `Like` (`Get`, `Put`, `Remove`);
- two decorators: `WithExtension` gives every path a required extension,
  and `KeepAlive` turns `Remove` into a success that removes nothing;
- a lock wrapper, `Mutexed`;
- the helper `Create`, which gets a path and creates the file behind it.

The model:

- `Temporary.Files` is a class. `RootDir` is a constant and `files` is a
  `set<Path>`. The random source is a stream `draws: nat -> nat` read at
  position `drawn`. Each method is specified by a relation between the old
  and the new `PoolState`: `SearchStep`, `GetStep` or `Release`.
- `Search` picks *some* available path (`:|`). Go iterates over a map, and
  that order is unspecified.
- The filesystem is `Fs.FileSystem`. It holds a `Disk`, which is a set of
  file paths and a set of directory paths. Every external failure is a
  fixed set `faults` of (operation, path) pairs that fail.
- `Like` is a datatype with three constructors: `Pool(Files)`,
  `WithExtension(inner, extension)` and `KeepAlive(inner)`.
  `Interface.Get` returns the ghost path `issued`, which is the base pool's
  result. In the `ensures`, the pool moves by `GetStep` on `issued`, and
  the result and the disk equal the pure function `Decorate(l, issued, …)`.
  `Create` is specified the same way through `Materialize`.
- The path library is not part of this model. Its behaviour is defined
  here as plain strings:
  - `Join(d, n) = d + "/" + n`;
  - `AddExt(f, e) = f + "." + e`;
  - `Ext(p)` is the text after the last dot of the last path element, or
    `""` if that element has no dot.

  These definitions are assumptions about the path library. In particular
  `Ext` is taken to return the extension without its dot, as the
  comparison with the bare extension at interface.go:47 and the check at
  temporary_test.go:53 require. Under these definitions,
  `Ext(AddExt(f, e)) == e` is proved for every `e` with no dot and no
  separator.

Where the code and its comments disagree, the model follows the code. The
comment on `Files.Get` (temporary.go:103-108) says a new file is created
and registered in the set. The code does neither: it only names a path.

## Model

| member | source | states |
|---|---|---|
| `Paths.Join` | temporary.go:123 | a joined path lies below the directory and ends in exactly the name |
| `Paths.AddExt` | interface.go:51 | the result is the path, then a dot, then exactly the extension |
| `Paths.DigitChar` | temporary.go:123 | a digit value below ten becomes the character that denotes it |
| `Paths.ExtDot` | interface.go:47 | the dot found starts the extension of the last element: nothing after it is a dot or a separator |
| `Paths.Ext` | interface.go:47 | the extension is a suffix of the path and contains no dot and no separator |
| `Paths.ExtDotOfPlainSuffix` | interface.go:51 | appending characters without dots or separators does not move the extension dot |
| `Paths.ExtOfAddExt` | interface.go:51 | `Ext(AddExt(f, e)) == e` for every extension without dot or separator, so an appended extension reads back |
| `Paths.DottedExtNotReadBack` | interface.go:47-51 | for the dotted extension `tar.gz`, `Ext` of the extended path is `gz`, so the comparison at interface.go:47 fails and the extension would be appended again |
| `Paths.Decimal` | temporary.go:123 | the decimal name of a random number is non-empty, all digits, and has no leading zero |
| `Paths.DecimalRoundTrip` | temporary.go:123 | parsing the decimal name gives back the number |
| `Paths.DecimalInjective` | temporary.go:123 | different numbers have different decimal names |
| `Paths.DecimalIsPlain` | temporary.go:123 | a decimal name has no dot and no separator |
| `Paths.JoinInjective` | temporary.go:123 | joining the root directory with a name is injective in the name |
| `Paths.ExtOfDecimalName` | temporary.go:123 | a path whose last element is a decimal name has no extension |
| `Errors.Error.Message` | temporary.go:156-159 | the `CreateFail` message starts with the fixed prefix and names the failed path |
| `Errors.Error.Unwrap` | temporary.go:161-163 | `Unwrap` yields the cause stored in the `CreateFail`, a strictly smaller error |
| `Fs.Attempt` | interface.go:19-29 | an external operation reports an error exactly when it is faulty on that path, and the error names the operation and the path |
| `Fs.AddFile` | interface.go:19 | creating or touching a file adds exactly that path and leaves the directories alone |
| `Fs.RemoveTree` | temporary.go:146 | recursive removal deletes the directory and exactly the files and directories below it |
| `Fs.FileSystem.constructor` | temporary.go:146 | an abstract filesystem starts with the given disk and faults |
| `Fs.FileSystem.Create` | interface.go:19 | creation fails exactly on a fault; otherwise the file exists afterwards and nothing else changes |
| `Fs.FileSystem.Touch` | interface.go:53 | touch fails exactly on a fault; otherwise the file exists afterwards and nothing else changes |
| `Fs.FileSystem.Close` | interface.go:29 | closing fails exactly on a fault and changes nothing |
| `Fs.FileSystem.ToValidFile` | interface.go:25 | a handle is made exactly when the file exists and can be checked, and it is for that path |
| `Fs.FileSystem.RemoveAll` | temporary.go:146 | removal fails exactly on a fault; otherwise the directory tree is gone |
| `Temporary.Files.FromDir` | temporary.go:40-46 | a new pool has the given root directory and random source, an empty available set, and no numbers drawn |
| `Temporary.Files.Mutexed` | temporary.go:77-81 | the locked pool wraps this very pool and shares its set and random source |
| `Temporary.Files.Search` | temporary.go:88-101 | on an empty set: not found, nothing changes; otherwise: found, some available path, and the set loses exactly that path |
| `Temporary.Files.Get` | temporary.go:109-116 | never fails; reuses as `Search` does when possible, otherwise returns `RootDir/<next random number>`, takes one number and leaves the set alone |
| `Temporary.Files.NewFile` | temporary.go:122-124 | returns the root joined with the decimal name of the next random number and advances the random source by one |
| `Temporary.Files.Put` | temporary.go:138-140 | the set becomes old set ∪ {path}; root and random source are unchanged |
| `Temporary.Files.Remove` | temporary.go:145-148 | removes only the root directory tree and returns the removal's error as is; the pool is untouched |
| `Temporary.Mutexed.constructor` | temporary.go:165-171 | the wrapper holds the given pool |
| `Temporary.Mutexed.Get` | temporary.go:174-179 | same result and same new pool state as `Files.Get` |
| `Temporary.Mutexed.Search` | temporary.go:182-187 | same result and same new pool state as `Files.Search` |
| `Temporary.Mutexed.Put` | temporary.go:190-195 | same new pool state as `Files.Put` |
| `Temporary.SearchOutcome` | temporary.go:88-101 | found iff the set is non-empty; the path found was available, is no longer, and the set shrinks by exactly one |
| `Temporary.SearchThenPut` | temporary.go:126-140 | putting back what `Search` took restores the pool exactly |
| `Temporary.PutIdempotent` | temporary.go:138-140 | putting twice is putting once; putting an available path changes nothing |
| `Temporary.GetStepOutcome` | temporary.go:109-124 | with paths available `Get` is a successful `Search`; with none it returns root/decimal(next draw), draws once, and leaves the set alone |
| `Temporary.GetTakesOut` | temporary.go:109-116 | what `Get` returns is not left available, and `Get` never adds to the set |
| `Temporary.ReuseAfterPut` | temporary.go:109-140 | a path put back into an empty pool is exactly what the next `Get` returns |
| `Temporary.FreshPath` | temporary.go:122-124 | a fresh path lies below the root, and its last element is all digits |
| `Temporary.FreshPathHasNoExt` | temporary.go:122-124 | a fresh path has no extension |
| `Temporary.FreshPathInjective` | temporary.go:122-124 | different random numbers give different fresh paths |
| `Temporary.RunMonotone` | temporary.go:109-116 | over successive `Get`s without `Put`, the root stays, the set only shrinks and the random source only advances |
| `Temporary.RunReusesOnce` | temporary.go:88-116 | over successive `Get`s without `Put`, a reused path was available at the start and no earlier `Get` returned it |
| `Temporary.RunFreshUnique` | temporary.go:122-124 | if the random source never repeats, a fresh path differs from every later result of the run |
| `Temporary.RunFromEmptyDistinct` | temporary.go:109-124 | starting from an empty set, with a source that never repeats, all results of the run are pairwise distinct |
| `Interface.ExtensionStep` | interface.go:45-58 | the step after the inner `Get` only adds files; an inner error is kept as is; a new result is `AddExt(inner path, ext)` and exists on disk |
| `Interface.Decorate` | interface.go:39-60 | the decorators' part of `Get` only adds files, and any result other than the pool's own path exists on disk |
| `Interface.RemoveOutcome` | interface.go:62-68 | `Remove` through a `KeepAlive` succeeds and touches nothing; otherwise it reports the base pool's removal of its root, and on success the disk is exactly `RemoveTree` of the old one |
| `Interface.Get` | interface.go:7-11 | through any stack of decorators, the base pool changes exactly as a plain `Get` on it, and the result and disk are `Decorate` of the issued path |
| `Interface.ExtensionGet` | interface.go:39-60 | `WithExtension.Get`: the inner `Get`, then `Decorate`'s extension step; the inner path is never put back |
| `Interface.Put` | interface.go:34-37 | every decorator forwards `Put`: the base pool's set gains the path |
| `Interface.Remove` | interface.go:62-68 | the provider's removal is exactly `RemoveOutcome` |
| `Interface.Create` | interface.go:13-31 | the pool moves by `GetStep`; the result and disk are `Materialize` of the provider's `Get` |
| `Interface.WithExtensionKeepsInnerError` | interface.go:40-43 | an inner `Get` error is returned unchanged and nothing is touched |
| `Interface.WithExtensionKeepsMatching` | interface.go:45-49 | a path that already has the extension is returned unchanged and nothing is touched |
| `Interface.WithExtensionAppends` | interface.go:51-58 | otherwise the result is `AddExt(inner path, ext)` and it exists on disk; a touch failure is returned as is |
| `Interface.ExtensionStepHasExt` | interface.go:45-58 | for an extension with no dot and no separator, the step that follows the inner `Get` returns a path with that extension whenever it succeeds |
| `Interface.WithExtensionResultHasExt` | interface.go:51-58 | for an extension with no dot and no separator, every successful result of `WithExtension.Get` has that extension |
| `Interface.WithExtensionOnFreshPath` | interface.go:45-58 | on a fresh pool path and a non-empty extension, when the touch succeeds, the extension is appended and the touched file exists |
| `Interface.KeepAliveLaws` | interface.go:62-68 | `KeepAlive` forwards `Get` unchanged, and its `Remove` returns no error and keeps the disk as it is |
| `Interface.RemoveClearsRoot` | temporary.go:145-148 | a successful removal that reaches the pool leaves no root directory and no file below it |
| `Interface.GetNeverDeletes` | interface.go:39-60 | no `Get` deletes a file |
| `Interface.Materialize` | interface.go:14-30 | `Create` after `Get` only adds files, passes a `Get` error on unchanged, and on success returns exactly the path `Get` produced, which then exists |
| `Interface.CreatePassesGetError` | interface.go:14-17 | an error of the provider's `Get` is returned unchanged and no file is created |
| `Interface.CreateFailWraps` | interface.go:19-23 | a failing creation yields a `CreateFail` naming the path, whose `Unwrap` is the cause; the disk is unchanged |
| `Interface.CreateSucceeds` | interface.go:25-30 | a successful `Create` returns a handle for exactly the path `Get` produced, and that file exists |
| `Interface.MaterializeSucceeds` | interface.go:19-30 | when `Get` produced a path and no operation fails on it, `Create` returns a handle for exactly that path and the disk gains only that file |
| `Interface.CreateWithExtension` | interface.go:13-58 | for an extension with no dot and no separator, every file `Create` makes through `WithExtension` exists and has that extension |
| `Usage.CreateNeverDeletes` | interface.go:13-31 | no `Create` deletes a file |
| `Usage.ExtensionCreateStep` | temporary_test.go:46-56 | one `Create` through `WithExtension` deletes no file; for an extension with no dot and no separator, a file it makes exists and has that extension |
| `Usage.CreateAndRelease` | temporary_test.go:10-29 | starting from an empty pool, the create/check/put loop draws at most one random number and leaves at most one path available; on a filesystem with no faults the run succeeds; a successful final removal leaves neither root directory nor files below it |
| `Usage.CreateWithExtensionDeferred` | temporary_test.go:38-59 | starting from an empty pool and for an extension with no dot and no separator, every file made through `WithExtension` exists and has that extension, and at the end exactly those files are available; on a filesystem with no faults all `n` files are made |
| `Usage.PutAll` | temporary_test.go:51 | the deferred puts add exactly the given paths to the base pool's set; root and random source are unchanged |

## Left out

- The lock in `Mutexed` (temporary.go:165-195) is left out. It only matters under concurrency, and the model is sequential, so race freedom is not proved.
- `NewDefault`, `FromRand` and `New` (temporary.go:48-74) are left out. They seed from the clock, call the random library and create a directory. The root directory and the random stream are parameters of `FromDir` instead.
- The `Status`, `InUse` and `NotInUse` constants (temporary.go:12-18) are left out because no operation uses them.
- The random generator's internals are left out. It is the stream `draws: nat -> nat`. Go's non-negative `int` is modelled as an unbounded `nat`, so the 63-bit range plays no part.
- The path library's internals are left out. `Join` does not clean `.` or `..`, and files have no contents. Only existence is modelled, with failures given by a fault set.
- `Temporary.RunFreshUnique`: proves that fresh paths are distinct only under a requires that the random stream never repeats. The code does not check this.
- A reused path is not related to a later fresh one. If a path that was put back equals a future fresh name, the code can hand it out twice, and nothing is proved about that case.
- `Interface.Create`: on a failing `Close`, Go returns the verified handle together with the error. The model returns only the error.
- `Interface.ExtensionGet`: on a failing `Touch`, Go returns the inner path together with the error. The model returns only the error. The orphaned inner path is not put back, as in the source.
- `Like` is closed over the package's own three implementations, so a caller's own `Like` type is not covered.
- `Files.Mutexed()` copies the `Files` struct in Go. The copy shares the map with the original. The model assumes it also shares the random source, that is, that the `rand.Rand` of github.com/bozso/emath/rand holds its state behind a pointer; that type is not part of this model. If it held its state by value, the copy and the original would each produce the same draws, and the shared `drawn` of the model would hide that. The model shares the whole `Files` object, so the copied `RootDir` string is shared as well; it is never changed, so nothing differs.
- The extension invariant (`Interface.ExtensionStepHasExt`, `Interface.WithExtensionResultHasExt`, `Interface.CreateWithExtension`, `Usage.ExtensionCreateStep`, `Usage.CreateWithExtensionDeferred`) is proved only for an extension with no dot and no separator. For a dotted extension such as `tar.gz`, `Ext` reads back only the part after the last dot (`gz`). So `WithExtension` never recognises a path it already extended and appends the extension again on reuse (`x.tar.gz.tar.gz`).
- Using a pool after `Remove` is undefined in the source. The model lets it continue on the changed disk.
