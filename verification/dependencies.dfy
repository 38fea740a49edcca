/** Resolved dependencies, and the vendor dependency: a Go package found in
    another dependency's `vendor` directory. A vendor dependency records
    the one non-vendor dependency (its host) that owns and versions it, and
    its forward-slash path relative to that host. */
module Dependencies {
  import opened UnixPaths
  import opened LockNotation

  /** The name of the vendor directory of a Go package. */
  const VendorDirectory: string := "vendor"

  /** An installer class: the one for local directories, or any other. */
  datatype Installer = LocalDirectoryInstaller | OtherInstaller(id: string)

  /** A resolved dependency.
      - `Plain` is any non-vendor dependency that selects its own installer
        (one fetched by a version-control system, say); its installer,
        notation and formatted version are its own business and are fields.
      - `LocalDirectory` is a dependency taken from a local directory.
      - `Vendor` is a vendor dependency. Its `host` field is the current
        state of the host object it shares with other dependencies;
        `version` and `exclusions` are its own copies. */
  datatype Dep =
    | Plain(name: string, version: string, exclusions: set<string>,
            installer: Installer, notation: map<string, Notation>, formattedVersion: string)
    | LocalDirectory(name: string, version: string, exclusions: set<string>,
                     notation: map<string, Notation>, formattedVersion: string)
    | Vendor(name: string, version: string, updateTime: int, host: Dep,
             relativePathToHost: string, exclusions: set<string>, dependencies: set<string>)

  /** A vendor dependency's host is never itself a vendor dependency. */
  predicate WellFormed(d: Dep) {
    d.Vendor? ==> !d.host.Vendor?
  }

  /** The owner of a dependency, defined independently of the vendor code:
      the first non-vendor dependency reached by following hosts. */
  function Owner(d: Dep): (o: Dep)
    ensures !o.Vendor?
  {
    if d.Vendor? then Owner(d.host) else d
  }

  /** The dependency that owns a package vendored under `parent`: the
      parent's host if the parent is itself vendored, the parent otherwise. */
  function DetermineHostDependency(parent: Dep): (h: Dep)
    ensures WellFormed(parent) ==> !h.Vendor? && h == Owner(parent)
    ensures Owner(h) == Owner(parent)
  {
    if parent.Vendor? then parent.host else parent
  }

  /** The path from the host's root to the package `packagePath` vendored
      under `parent`: an absolute package path stands alone; a relative one
      follows the parent's path, if the parent is vendored, and the vendor
      directory. */
  function CalculateRootPathToHost(parent: Dep, packagePath: string): (p: Path)
    ensures Parse(packagePath).absolute ==> p == Parse(packagePath)
    ensures !Parse(packagePath).absolute ==>
      && p.absolute == (parent.Vendor? && Parse(parent.relativePathToHost).absolute)
      && p.elements == (if parent.Vendor? then Parse(parent.relativePathToHost).elements else [])
                       + [VendorDirectory] + Parse(packagePath).elements
  {
    if parent.Vendor? then
      Resolve(Resolve(Parse(parent.relativePathToHost), Parse(VendorDirectory)), Parse(packagePath))
    else
      Resolve(Parse(VendorDirectory), Parse(packagePath))
  }

  /** Builds the vendor dependency `name` found under `parent`. Its version
      and exclusions are copied from the host; `updateTime` stands for the
      modification time of its root directory; `produce` stands for the
      produce strategy, which sees the new dependency with its host and path
      resolved and no dependencies yet, and yields its dependency set. */
  function FromParent(name: string, parent: Dep, updateTime: int, produce: Dep -> set<string>): (r: Dep)
    ensures r.Vendor? && r.name == name && r.updateTime == updateTime
    ensures WellFormed(parent) ==> WellFormed(r)
    ensures r.version == r.host.version
    ensures r.exclusions == r.host.exclusions
    ensures Backslash !in r.relativePathToHost
    ensures r.dependencies == produce(r.(dependencies := {}))
    ensures !parent.Vendor? ==> r.host == parent
    ensures parent.Vendor? ==> r.host == parent.host
    ensures Owner(r) == Owner(parent)
  {
    var host := DetermineHostDependency(parent);
    var entity := Vendor(name, host.version, updateTime, host,
                         ToUnixString(Print(CalculateRootPathToHost(parent, name))),
                         host.exclusions, {});
    entity.(dependencies := produce(entity))
  }

  /** The stored relative path read back as a path. What is read back is in
      canonical form: its elements are proper name elements, and printing it
      and reading it again gives the same path. */
  function GetRelativePathToHost(v: Dep): (p: Path)
    requires v.Vendor?
    ensures forall i :: 0 <= i < |p.elements| ==> IsElement(p.elements[i])
    ensures Parse(Print(p)) == p
  {
    var p := Parse(v.relativePathToHost);
    ParsePrint(p);
    p
  }

  /** The installer class of a dependency that selects one itself: a vendor
      dependency whose host is a local directory uses the local-directory
      installer, any other vendor dependency uses its host's installer. A
      local-directory dependency selects none through this route. Whatever
      the depth of the host chain, the choice is made by its owner. */
  function GetInstallerClass(d: Dep): (i: Installer)
    requires !d.LocalDirectory?
    ensures Owner(d).LocalDirectory? ==> i == LocalDirectoryInstaller
    ensures Owner(d).Plain? ==> i == Owner(d).installer
  {
    match d
    case Plain(_, _, _, installer, _, _) => installer
    case Vendor(_, _, _, host, _, _, _) =>
      if host.LocalDirectory? then LocalDirectoryInstaller else GetInstallerClass(host)
  }

  /** The locked notation of a dependency; for a vendor dependency, its name,
      its path inside the host and a copy of the host's notation. */
  function ToLockedNotation(d: Dep): (m: map<string, Notation>)
    ensures d.Vendor? ==> m.Keys == {NameKey, VendorPathKey, HostKey}
    ensures d.Vendor? ==>
      Decode(m) == Some(VendorRecord(d.name, ToUnixString(d.relativePathToHost), ToLockedNotation(d.host)))
  {
    match d
    case Plain(_, _, _, _, notation, _) => notation
    case LocalDirectory(_, _, _, notation, _) => notation
    case Vendor(name, _, _, host, path, _, _) =>
      var rec := VendorRecord(name, ToUnixString(path), ToLockedNotation(host));
      DecodeEncode(rec);
      Encode(rec)
  }

  /** The formatted version; for a vendor dependency, host name, `#`, the
      host's formatted version, `/`, and the path inside the host. */
  function FormatVersion(d: Dep): (s: string)
    ensures d.Vendor? && !d.host.Vendor? && Backslash !in d.relativePathToHost ==>
      s == d.host.name + "#" + d.host.formattedVersion + "/" + d.relativePathToHost
  {
    match d
    case Plain(_, _, _, _, _, formatted) => formatted
    case LocalDirectory(_, _, _, _, formatted) => formatted
    case Vendor(_, _, _, host, path, _, _) =>
      host.name + "#" + FormatVersion(host) + "/" + ToUnixString(path)
  }

  /** The vendor dependency `v` as seen after another party has moved its
      shared host object to state `h`: the host is read afresh, the copies
      taken at construction stay. */
  function HostChanged(v: Dep, h: Dep): Dep
    requires v.Vendor?
  {
    v.(host := h)
  }

  // Properties of one construction step

  /** Under a non-vendor parent, the parent is the host and the path is the
      vendor directory followed by the package name. */
  lemma FromNonVendorParent(name: string, parent: Dep, updateTime: int, produce: Dep -> set<string>)
    requires !parent.Vendor?
    requires IsNormalRelative(name)
    ensures var r := FromParent(name, parent, updateTime, produce);
      && r.host == parent
      && r.version == parent.version
      && r.exclusions == parent.exclusions
      && r.relativePathToHost == VendorDirectory + "/" + name
      && IsNormalRelative(r.relativePathToHost)
      && WellFormed(r)
  {
    VendorDirectoryIsNormal();
    ResolveNormal(VendorDirectory, name);
  }

  /** Under a vendor parent, the parent's host is the host and the path is
      the parent's path, the vendor directory, then the package name. */
  lemma FromVendorParent(name: string, parent: Dep, updateTime: int, produce: Dep -> set<string>)
    requires parent.Vendor?
    requires IsNormalRelative(parent.relativePathToHost)
    requires IsNormalRelative(name)
    ensures var r := FromParent(name, parent, updateTime, produce);
      && r.host == parent.host
      && r.version == parent.host.version
      && r.exclusions == parent.host.exclusions
      && r.relativePathToHost == parent.relativePathToHost + "/" + VendorDirectory + "/" + name
      && IsNormalRelative(r.relativePathToHost)
  {
    VendorDirectoryIsNormal();
    ResolveNormalTwice(parent.relativePathToHost, VendorDirectory, name);
  }

  lemma VendorDirectoryIsNormal()
    ensures IsNormalRelative(VendorDirectory)
  {
  }

  /** Reading the stored path back and writing it out again gives the
      stored string, and the path read back is relative. */
  lemma StoredPathReadsBack(v: Dep)
    requires v.Vendor? && IsNormalRelative(v.relativePathToHost)
    ensures !GetRelativePathToHost(v).absolute
    ensures ToUnixString(Print(GetRelativePathToHost(v))) == v.relativePathToHost
  {
    NormalParsePrint(v.relativePathToHost);
    ToUnixStringFixes(v.relativePathToHost);
  }

  /** The path read back is the path that was computed at construction, for
      every package name made of path elements free of backslashes. */
  lemma ComputedPathReadsBack(name: string, parent: Dep, updateTime: int, produce: Dep -> set<string>)
    requires Backslash !in name
    requires parent.Vendor? ==> Backslash !in parent.relativePathToHost
    ensures var r := FromParent(name, parent, updateTime, produce);
      GetRelativePathToHost(r) == CalculateRootPathToHost(parent, name)
  {
    var vendor, package := Parse(VendorDirectory), Parse(name);
    ParseClean(VendorDirectory);
    ParseClean(name);
    if parent.Vendor? {
      var base := Parse(parent.relativePathToHost);
      ParseClean(parent.relativePathToHost);
      ResolveClean(base, vendor);
      ResolveClean(Resolve(base, vendor), package);
    } else {
      ResolveClean(vendor, package);
    }
    CleanReadsBack(CalculateRootPathToHost(parent, name));
  }

  // Installer selection

  /** A well-formed vendor dependency selects the local-directory installer
      when its host is a local directory and otherwise exactly its host's
      own installer: the delegation is one step deep. */
  lemma InstallerSelection(v: Dep)
    requires v.Vendor? && WellFormed(v)
    ensures v.host.LocalDirectory? ==> GetInstallerClass(v) == LocalDirectoryInstaller
    ensures !v.host.LocalDirectory? ==> v.host.Plain? && GetInstallerClass(v) == v.host.installer
    ensures !v.host.LocalDirectory? ==> GetInstallerClass(v) == GetInstallerClass(v.host)
  {
  }

  /** When no plain host uses the local-directory installer, a well-formed
      vendor dependency uses it exactly when its host is a local directory. */
  lemma LocalInstallerExactly(v: Dep)
    requires v.Vendor? && WellFormed(v)
    requires v.host.Plain? ==> v.host.installer != LocalDirectoryInstaller
    ensures GetInstallerClass(v) == LocalDirectoryInstaller <==> v.host.LocalDirectory?
  {
  }

  // Locked notation and formatted version

  /** The lock record of a vendor dependency built by `FromParent` reads back
      as its name, its stored path and its host's notation; for a
      well-formed one the host part is the host's own notation. */
  lemma LockedNotationOfVendor(name: string, parent: Dep, updateTime: int, produce: Dep -> set<string>)
    ensures var r := FromParent(name, parent, updateTime, produce);
      var m := ToLockedNotation(r);
      && m.Keys == {NameKey, VendorPathKey, HostKey}
      && Decode(m) == Some(VendorRecord(name, r.relativePathToHost, ToLockedNotation(r.host)))
      && (WellFormed(parent) ==> m[HostKey] == Record(r.host.notation))
  {
    var r := FromParent(name, parent, updateTime, produce);
    ToUnixStringFixes(r.relativePathToHost);
    DecodeEncode(VendorRecord(name, r.relativePathToHost, ToLockedNotation(r.host)));
  }

  /** The formatted version of a vendor dependency built by `FromParent` is
      its host's name, `#`, the host's formatted version, `/`, and the
      stored path. */
  lemma FormatVersionOfVendor(name: string, parent: Dep, updateTime: int, produce: Dep -> set<string>)
    requires WellFormed(parent)
    ensures var r := FromParent(name, parent, updateTime, produce);
      FormatVersion(r) == r.host.name + "#" + r.host.formattedVersion + "/" + r.relativePathToHost
  {
    var r := FromParent(name, parent, updateTime, produce);
    ToUnixStringFixes(r.relativePathToHost);
  }

  /** After the shared host object changes, a vendor dependency keeps the
      version and exclusions it copied, while its formatted version and
      locked notation follow the host's new state. */
  lemma HostReadLive(v: Dep, h: Dep)
    requires v.Vendor? && !h.Vendor? && Backslash !in v.relativePathToHost
    ensures var w := HostChanged(v, h);
      && w.version == v.version
      && w.exclusions == v.exclusions
      && FormatVersion(w) == h.name + "#" + h.formattedVersion + "/" + v.relativePathToHost
      && ToLockedNotation(w)[HostKey] == Record(h.notation)
  {
    ToUnixStringFixes(v.relativePathToHost);
  }
}
