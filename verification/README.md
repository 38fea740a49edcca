# Vendor dependencies of gogradle, modelled in Dafny

gogradle resolves the Go dependencies of a Gradle build. A Go package may carry
copies of its own dependencies in a `vendor` directory, and those copies may
carry `vendor` directories of their own. `VendorResolvedDependency` is how such
a vendored package is represented. It collapses any chain of nested vendor
directories to one non-vendor *host* dependency and a flat, forward-slash path
inside that host. It copies the host's version and transitive exclusions. It
picks the installer: the local-directory one for a local host, otherwise the
host's own. It writes the lock-file record `{name, vendorPath, host}` and the
version string `hostName#hostVersion/path`.

The model is functional. A resolved dependency is an immutable value of the
datatype `Dependencies.Dep`, which has three variants:

- `Plain`: a non-vendor dependency that selects its own installer;
- `LocalDirectory`: a dependency taken from a local directory;
- `Vendor`: a vendor dependency.

Java's `Path` is replaced by a value `UnixPaths.Path`, which is an absolute flag
plus a list of name elements. The modules are:

- `UnixPaths` (`unix_paths.dfy`): `Paths.get`, `Path.resolve` and
  `Path.toString` on a Unix file system, plus `toUnixString`. It also holds the
  parse/print round trips and the normal form of a stored relative path.
- `LockNotation` (`lock_notation.dfy`): lock-file values, the three keys of a
  vendor record, and the record's layout. It includes a decoder as the
  layout's inverse.
- `Dependencies` (`dependencies.dfy`): the `Dep` datatype, `fromParent`, host
  determination, path calculation, installer selection, locked notation and
  version formatting. It also holds the one-step properties.
- `Nesting` (`nesting.dfy`): chains of N nested vendor dependencies, and the
  proof that every depth gives the same host and the concatenated path.

A vendor dependency's `host` field holds the current state of the host object,
which the Java code shares by reference. `Dependencies.HostChanged` models
another party changing that host. The copies of version and exclusions stay as
they were. `formatVersion` and `toLockedNotation` read the host's new state.
This asymmetry is the code's behaviour, and the model keeps it.

Two details of the code that the model keeps:

- An absolute package name gives an absolute stored path, because
  `Path.resolve` returns an absolute argument unchanged (lines 65 and 67). The
  model does the same (`UnixPaths.Resolve`). The "`vendor/` + name" results
  are stated for names in normal relative form.
- `toLockedNotation` and `formatVersion` apply `toUnixString` a second time to
  the stored path. The model does too. The stored path has no backslash, so the
  second pass changes nothing (`UnixPaths.ToUnixStringIdempotent`).

`Dependencies.Owner` is a reference definition used in several contracts: the
first non-vendor dependency reached by following hosts.

## Model

| member | source | states |
|---|---|---|
| Dependencies.DetermineHostDependency | src/main/java/com/github/blindpirate/gogradle/core/dependency/VendorResolvedDependency.java:71-77 | the host found for a well-formed parent is not a vendor dependency and is the parent's owner; for any parent, the host has the same owner as the parent |
| Dependencies.CalculateRootPathToHost | src/main/java/com/github/blindpirate/gogradle/core/dependency/VendorResolvedDependency.java:61-69 | an absolute package path is the result on its own; a relative one gives the parent's stored path (for a vendor parent), then `vendor`, then the package path's elements, absolute only when the parent's stored path is |
| Dependencies.FromParent | src/main/java/com/github/blindpirate/gogradle/core/dependency/VendorResolvedDependency.java:32-59 | the result is a vendor dependency with the given name and update time; its version and exclusions equal its host's; the host is the parent for a non-vendor parent and the parent's host for a vendor parent, for every name; the result has the parent's owner; a well-formed parent gives a well-formed result (host not a vendor); the stored path has no backslash; the dependency set is what the produce strategy yields for the entity with host and path already resolved and no dependencies yet |
| Dependencies.FromNonVendorParent | src/main/java/com/github/blindpirate/gogradle/core/dependency/VendorResolvedDependency.java:61-77 | under a non-vendor parent and a normal relative name: the host is the parent, version and exclusions are the parent's, the path is `vendor/` + name in normal form |
| Dependencies.FromVendorParent | src/main/java/com/github/blindpirate/gogradle/core/dependency/VendorResolvedDependency.java:61-77 | under a vendor parent with a normal path: the host is the parent's host, and the path is parent path + `/vendor/` + name, again in normal form |
| Nesting.DepthIndependence | src/main/java/com/github/blindpirate/gogradle/core/dependency/VendorResolvedDependency.java:32-77 | for every depth N >= 1 and any modification time per level (proved by induction): the last level has the last name and its own level's time, the chain is well formed, its host is the original non-vendor root, version and exclusions are the root's, and the path is the N `vendor/<name>` pairs joined by `/` |
| Nesting.ChainFormatVersion | src/main/java/com/github/blindpirate/gogradle/core/dependency/VendorResolvedDependency.java:105-109 | at any depth and any modification times, the formatted version is root name + `#` + root's formatted version + `/` + the chained path |
| Nesting.TwoLevelScenario | src/main/java/com/github/blindpirate/gogradle/core/dependency/VendorResolvedDependency.java:32-77 | host H, then `foo` under H, then `bar` under foo: both have host H (not foo), bar has its own modification time, paths are `vendor/foo` and `vendor/foo/vendor/bar`, the version is H's, and the formatted version is `github.com/x/y#v1.2.3/vendor/foo` |
| Dependencies.GetRelativePathToHost | src/main/java/com/github/blindpirate/gogradle/core/dependency/VendorResolvedDependency.java:83-85 | the path read back from the stored string has proper name elements only and is canonical: printing it and reading it again gives the same path |
| Dependencies.StoredPathReadsBack | src/main/java/com/github/blindpirate/gogradle/core/dependency/VendorResolvedDependency.java:83-85 | a stored normal path read back with getRelativePathToHost is relative, and writing it out again gives the same string |
| Dependencies.ComputedPathReadsBack | src/main/java/com/github/blindpirate/gogradle/core/dependency/VendorResolvedDependency.java:53-57 | for backslash-free names, the path read back from the stored string is exactly the path computed at construction |
| Dependencies.GetInstallerClass | src/main/java/com/github/blindpirate/gogradle/core/dependency/VendorResolvedDependency.java:87-94 | whatever the depth of the host chain, the owner decides: a local-directory owner gives the local-directory installer, a plain owner gives its own installer |
| Dependencies.InstallerSelection | src/main/java/com/github/blindpirate/gogradle/core/dependency/VendorResolvedDependency.java:87-94 | for a well-formed vendor dependency: a local-directory host gives the local-directory installer; any other host is a plain dependency, and the choice is that host's own installer (delegation is one step deep) |
| Dependencies.LocalInstallerExactly | src/main/java/com/github/blindpirate/gogradle/core/dependency/VendorResolvedDependency.java:87-94 | if plain hosts never use the local-directory installer, it is chosen exactly when the host is a local directory |
| Dependencies.ToLockedNotation | src/main/java/com/github/blindpirate/gogradle/core/dependency/VendorResolvedDependency.java:96-103 | a vendor dependency's locked notation has exactly the keys name, vendorPath and host, and decodes to its name, the Unix form of its stored path, and the host's locked notation |
| Dependencies.LockedNotationOfVendor | src/main/java/com/github/blindpirate/gogradle/core/dependency/VendorResolvedDependency.java:96-103 | the locked notation has exactly the keys name, vendorPath and host; it decodes to the name, the stored path and the host's notation; for a well-formed dependency the host entry is the host's own notation |
| Dependencies.FormatVersion | src/main/java/com/github/blindpirate/gogradle/core/dependency/VendorResolvedDependency.java:105-109 | for a vendor dependency with a non-vendor host and a backslash-free stored path: host name + `#` + host's formatted version + `/` + the stored path as it is |
| Dependencies.FormatVersionOfVendor | src/main/java/com/github/blindpirate/gogradle/core/dependency/VendorResolvedDependency.java:105-109 | the formatted version is host name + `#` + host's formatted version + `/` + stored path |
| Dependencies.HostReadLive | src/main/java/com/github/blindpirate/gogradle/core/dependency/VendorResolvedDependency.java:105-109 | after the shared host changes state, version and exclusions keep their construction-time copies, while the formatted version and the notation's host entry follow the new host state |
| LockNotation.DecodeEncode | src/main/java/com/github/blindpirate/gogradle/core/dependency/VendorResolvedDependency.java:97-102 | decoding a vendor record's lock map gives back the same name, vendor path and host notation |
| LockNotation.EncodeDecode | src/main/java/com/github/blindpirate/gogradle/core/dependency/VendorResolvedDependency.java:97-102 | any map that decodes is exactly the encoding of its decoded record, so equal records are written identically |
| LockNotation.EncodeInjective | src/main/java/com/github/blindpirate/gogradle/core/dependency/VendorResolvedDependency.java:97-102 | distinct vendor records never produce the same lock map |
| UnixPaths.Parse | src/main/java/com/github/blindpirate/gogradle/core/dependency/VendorResolvedDependency.java:83-85 | `Paths.get`: every element of the path is non-empty and free of `/`; a non-empty string without `/` is the relative path of that one element |
| UnixPaths.Resolve | src/main/java/com/github/blindpirate/gogradle/core/dependency/VendorResolvedDependency.java:64-67 | `Path.resolve`: an absolute argument is the result; a relative one keeps the base's absoluteness, and the element counts add up |
| UnixPaths.ResolveEndsWith | src/main/java/com/github/blindpirate/gogradle/core/dependency/VendorResolvedDependency.java:64-67 | a resolved path ends with the elements of the argument, preceded by those of the base when the argument is relative |
| UnixPaths.Print | src/main/java/com/github/blindpirate/gogradle/core/dependency/VendorResolvedDependency.java:57 | `Path.toString`: an absolute path prints with a leading `/`; backslash-free elements print backslash-free |
| UnixPaths.ToUnixString | src/main/java/com/github/blindpirate/gogradle/core/dependency/VendorResolvedDependency.java:57 | `toUnixString`: same length, every non-backslash character kept in place, no backslash left (what a backslash becomes is the next row) |
| UnixPaths.ToUnixStringSlashes | src/main/java/com/github/blindpirate/gogradle/core/dependency/VendorResolvedDependency.java:57 | `toUnixString` turns every backslash of its input into `/`, for every input |
| UnixPaths.ResolveNormal | src/main/java/com/github/blindpirate/gogradle/core/dependency/VendorResolvedDependency.java:67 | resolving one normal relative path against another and writing it as a Unix string gives the two joined by `/`, in normal form |
| UnixPaths.ResolveNormalTwice | src/main/java/com/github/blindpirate/gogradle/core/dependency/VendorResolvedDependency.java:64-65 | resolving two normal relative paths in turn gives the three joined by `/`, in normal form |
| UnixPaths.ParsePrint | src/main/java/com/github/blindpirate/gogradle/core/dependency/VendorResolvedDependency.java:83-85 | parsing a printed path gives back the path, for every path whose elements are non-empty and free of `/` |
| UnixPaths.NormalParsePrint | src/main/java/com/github/blindpirate/gogradle/core/dependency/VendorResolvedDependency.java:83-85 | a normal relative path string parses to a relative path with at least one element, which prints back to the same string |
| UnixPaths.ToUnixStringIdempotent | src/main/java/com/github/blindpirate/gogradle/core/dependency/VendorResolvedDependency.java:100 | applying toUnixString a second time changes nothing |

## Left out

- Producing the vendor dependency's own dependencies (lines 42-45). The global service lookup, the `DependencyVisitor`, `VendorOnlyProduceStrategy` and the `BUILD` phase are not modelled. They are replaced by a function parameter `produce`, which is applied to the entity once its host and path are resolved.
- `rootDir.lastModified()` (line 38) is a file-system query. It is the plain parameter `updateTime`.
- Installer classes are abstract values. A `Plain` dependency's own installer, notation and formatted version are fields, because `AbstractResolvedDependency` and the concrete dependency classes are not part of this model.
- Only the marker role of `LocalDirectoryDependency` (the variant `LocalDirectory`) and its notation and formatted-version fields are modelled; its own installation is not. `Dependencies.GetInstallerClass` requires a dependency that is not a local directory, because that class does not take part in `getInstallerClass`.
- `MapNotationParser` is not part of this model. Its key constants are taken as `name`, `vendorPath` and `host`, the names of the lock-record fields.
- `StringUtils` is not part of this model. `toUnixString` is modelled as replacing every backslash with `/`.
- `Path` is modelled with Unix semantics only. Windows separators and drive roots are not modelled. `.` and `..` are kept as ordinary elements, as `Paths.get` keeps them.
- `HashMap` and `HashSet` copies, their iteration order, and Java serialisation do not apply. Maps and sets are values, so every copy is independent.
- `getHostDependency` (lines 79-81) is the field `host`.
- Every host that is neither a vendor dependency nor a local directory is taken to be an `AbstractResolvedDependency` (the variant `Plain`). The `ClassCastException` that the cast at line 92 throws for any other kind of host is not modelled: the closed datatype `Dep` leaves no such host.
- `Paths.get` and `Path.resolve` (lines 64-67 and 84) throw `InvalidPathException` for a string holding a NUL or a character the file system cannot map. `UnixPaths.Parse` accepts every string, so this failure is not modelled.
- UnixPaths.ToUnixString: its own contract leaves out what a backslash becomes. That clause is the lemma `UnixPaths.ToUnixStringSlashes`, for every input, rather than part of the function's contract: as part of the contract it would be assumed at every stored path of a nested chain, and it makes the automated search on the chain lemmas far larger.
- Dependencies.FromNonVendorParent: the `vendor/` + name result is stated only for names in normal relative form: non-empty, with no leading, trailing or doubled `/`, and no backslash. Other names are computed by the model (absolute names replace the path, redundant separators are dropped, backslashes become `/`), but no closed form is proved for them.
- Dependencies.FromVendorParent: the same restriction to normal relative names and parent paths.
- Nesting.DepthIndependence: the same restriction to normal relative names; the root must be a non-vendor dependency.
- Dependencies.StoredPathReadsBack: stated for stored paths in normal form, which is what every construction from normal names produces.
