/** `bump_version`: new package versions, and matching version requirements in every manifest of the workspace. */
module VersionBump {
  import opened Basics
  import opened Manifests
  import opened Versions

  // ---- the context that collects operations and errors ----

  datatype Owner = Root | Crate(name: Name)

  /** An announcement, with the version before and after. */
  datatype Operation =
    | BumpedPackage(owner: Owner, before: PackageVersion, to: string)
    | BumpedDependency(owner: Owner, dependency: Name, from: string, to: string)

  datatype Issue = NotATable(owner: Owner, dependency: Name)

  class Context {
    var ops: seq<Operation>
    var errors: seq<Issue>

    constructor ()
      ensures ops == [] && errors == []
    {
      ops, errors := [], [];
    }

    /** `finish`. False: the process exits with status 1. */
    method Finish() returns (ok: bool)
      ensures ok <==> errors == []
    {
      return |errors| == 0;
    }
  }

  /** A parsed `Cargo.toml`, edited in memory, and its text on disk. */
  class Document {
    var manifest: Manifest
    var saved: Manifest

    constructor (m: Manifest)
      ensures manifest == m && saved == m
    {
      manifest, saved := m, m;
    }

    method Save()
      modifies this`saved
      ensures saved == manifest
    {
      saved := manifest;
    }
  }

  // ---- editing one entry ----

  function SetIn(s: Section, kind: Kind, n: Name, info: Info): Section {
    s.With(kind, s.Of(kind).(infos := s.Of(kind).infos[n := info]))
  }

  /** The manifest after assigning to the entry at `k`. */
  function SetInfo(m: Manifest, k: Key, info: Info): Manifest
    requires HasEntry(m, k)
  {
    match k.target
    case None => m.(section := SetIn(m.section, k.kind, k.name, info))
    case Some(t) => m.(targets := m.targets[t := SetIn(m.targets[t], k.kind, k.name, info)])
  }

  predicate SameTable(a: Table, b: Table) {
    a.names == b.names && a.infos.Keys == b.infos.Keys
  }

  predicate SameSection(a: Section, b: Section) {
    SameTable(a.direct, b.direct) && SameTable(a.dev, b.dev) && SameTable(a.build, b.build)
  }

  /** Same package, same tables, same entries in the same order; only the values of entries and the version may
      differ. */
  predicate SameShape(a: Manifest, b: Manifest) {
    && a.name == b.name && a.publish == b.publish
    && SameSection(a.section, b.section)
    && a.targetNames == b.targetNames && a.targets.Keys == b.targets.Keys
    && forall t | t in a.targets :: SameSection(a.targets[t], b.targets[t])
  }

  lemma SetInFacts(s: Section, kind: Kind, n: Name, info: Info, j: Kind, x: Name)
    requires n in s.Of(kind).infos
    ensures SameSection(s, SetIn(s, kind, n, info))
    ensures x in s.Of(j).infos ==>
              x in SetIn(s, kind, n, info).Of(j).infos &&
              SetIn(s, kind, n, info).Of(j).infos[x] == if j == kind && x == n then info else s.Of(j).infos[x]
  {
  }

  lemma SetInfoShape(m: Manifest, k: Key, info: Info)
    requires HasEntry(m, k)
    ensures SameShape(m, SetInfo(m, k, info)) && SetInfo(m, k, info).version == m.version
  {
    SetInFacts(SectionAt(m, k.target), k.kind, k.name, info, k.kind, k.name);
    hide SetIn;
  }

  /** Assigning to one entry leaves every other one alone. */
  lemma SetInfoLookup(m: Manifest, k: Key, info: Info, j: Key)
    requires HasEntry(m, k) && HasEntry(m, j)
    ensures HasEntry(SetInfo(m, k, info), j)
    ensures Lookup(SetInfo(m, k, info), j) == if j == k then info else Lookup(m, j)
  {
    SetInFacts(SectionAt(m, k.target), k.kind, k.name, info, j.kind, j.name);
    hide SetIn;
  }

  lemma {:induction false} SameTargetDeps(a: Manifest, b: Manifest, ts: seq<string>)
    requires SameShape(a, b)
    ensures TargetDeps(a, ts) == TargetDeps(b, ts)
  {
    if ts != [] { SameTargetDeps(a, b, ts[..|ts| - 1]); }
  }

  /** Editing values while `crate_deps` iterates does not disturb the iteration. */
  lemma SameShapeSameDeps(a: Manifest, b: Manifest)
    requires SameShape(a, b)
    ensures CrateDeps(a) == CrateDeps(b)
  {
    SameTargetDeps(a, b, a.targetNames);
  }

  lemma SameShapeSameEntries(a: Manifest, b: Manifest, k: Key)
    requires SameShape(a, b)
    ensures HasEntry(a, k) <==> HasEntry(b, k)
  {
  }

  // ---- bump_package_version ----

  /** The package states a version of its own. */
  predicate OwnVersion(p: PackageVersion) {
    p.Literal? || (p.Inherited? && !p.workspace)
  }

  function NewVersion(p: PackageVersion, v: Version): PackageVersion {
    if OwnVersion(p) then Literal(Text(v)) else p
  }

  method BumpPackageVersion(ctx: Context, owner: Owner, v: Version, doc: Document)
    modifies ctx`ops, doc`manifest
    ensures doc.manifest == old(doc.manifest).(version := NewVersion(old(doc.manifest.version), v))
    ensures ctx.ops == old(ctx.ops) +
                       match old(doc.manifest.version)
                       case NoVersion => []
                       case Literal(_) => [BumpedPackage(owner, old(doc.manifest.version), Text(v))]
                       case Inherited(workspace) =>
                         if workspace then [] else [BumpedPackage(owner, old(doc.manifest.version), Text(v))]
  {
    if doc.manifest.version.NoVersion? { return; }
    if !doc.manifest.version.Inherited? || !doc.manifest.version.workspace {
      ctx.ops := ctx.ops + [BumpedPackage(owner, doc.manifest.version, Text(v))];
      doc.manifest := doc.manifest.(version := Literal(Text(v)));
    }
  }

  // ---- bump_dependency_versions ----

  predicate Versioned(info: Info) {
    info.Fields? && "version" in info.fields
  }

  function NewInfo(info: Info, v: Version): Info {
    if Versioned(info) then Fields(info.fields["version" := Requirement(v)]) else info
  }

  ghost predicate HasAll(m: Manifest, ks: seq<Key>) {
    forall k | k in ks :: HasEntry(m, k)
  }

  /** `after` is `before` with exactly the versioned workspace entries among `ks` updated. */
  ghost predicate Updated(before: Manifest, after: Manifest, ks: seq<Key>, v: Version, crates: set<Name>) {
    && SameShape(before, after) && after.version == before.version
    && forall k | HasEntry(before, k) ::
        HasEntry(after, k) &&
        Lookup(after, k) == if k in ks && k.name in crates then NewInfo(Lookup(before, k), v) else Lookup(before, k)
  }

  function Announcement(owner: Owner, k: Key, info: Info, v: Version): Operation
    requires Versioned(info)
  {
    BumpedDependency(owner, k.name, info.fields["version"], Requirement(v))
  }

  /** One announcement per update. */
  function EntryOps(owner: Owner, m: Manifest, k: Key, v: Version, crates: set<Name>): seq<Operation> {
    if k.name in crates && HasEntry(m, k) && Versioned(Lookup(m, k)) then [Announcement(owner, k, Lookup(m, k), v)]
    else []
  }

  function DependencyOps(owner: Owner, m: Manifest, ks: seq<Key>, v: Version, crates: set<Name>): seq<Operation> {
    if ks == [] then []
    else DependencyOps(owner, m, ks[..|ks| - 1], v, crates) + EntryOps(owner, m, ks[|ks| - 1], v, crates)
  }

  /** One error per workspace crate whose entry is a bare string. */
  function EntryIssues(owner: Owner, m: Manifest, k: Key, crates: set<Name>): seq<Issue> {
    if k.name in crates && HasEntry(m, k) && Lookup(m, k).Plain? then [NotATable(owner, k.name)] else []
  }

  function DependencyIssues(owner: Owner, m: Manifest, ks: seq<Key>, crates: set<Name>): seq<Issue> {
    if ks == [] then []
    else DependencyIssues(owner, m, ks[..|ks| - 1], crates) + EntryIssues(owner, m, ks[|ks| - 1], crates)
  }

  /** The update so far extends by the next key. */
  lemma UpdatedStep(before: Manifest, now: Manifest, ks: seq<Key>, k: Key, v: Version, crates: set<Name>)
    requires Updated(before, now, ks, v, crates) && HasEntry(before, k)
    ensures k.name !in crates || !Versioned(Lookup(now, k)) ==> Updated(before, now, ks + [k], v, crates)
    ensures k.name in crates && Versioned(Lookup(now, k)) ==>
              Updated(before, SetInfo(now, k, Fields(Lookup(now, k).fields["version" := Requirement(v)])),
                      ks + [k], v, crates)
  {
    hide SameShape, HasEntry, Lookup, SetInfo, Requirement;
    if k.name in crates && Versioned(Lookup(now, k)) {
      var info := Fields(Lookup(now, k).fields["version" := Requirement(v)]);
      SetInfoShape(now, k, info);
      SameShapeTrans(before, now, SetInfo(now, k, info));
      forall j | HasEntry(before, j)
        ensures HasEntry(SetInfo(now, k, info), j)
        ensures Lookup(SetInfo(now, k, info), j) == if j == k then info else Lookup(now, j)
      {
        SetInfoLookup(now, k, info, j);
      }
      assert info == NewInfo(Lookup(before, k), v);
    }
  }

  lemma NotYet(ks: seq<Key>, i: nat)
    requires NoDup(ks) && i < |ks|
    ensures ks[i] !in ks[..i]
  {
  }

  lemma UpdatedNothing(m: Manifest, v: Version, crates: set<Name>)
    ensures Updated(m, m, [], v, crates)
  {
  }

  lemma SameShapeTrans(a: Manifest, b: Manifest, c: Manifest)
    requires SameShape(a, b) && SameShape(b, c)
    ensures SameShape(a, c)
  {
  }

  /** The body of the loop, for the entry at `k`. */
  method BumpEntry(ctx: Context, owner: Owner, v: Version, doc: Document, crates: set<Name>, k: Key,
                   ghost before: Manifest, ghost earlier: seq<Key>)
    requires Updated(before, doc.manifest, earlier, v, crates) && HasEntry(before, k) && k !in earlier
    modifies ctx, doc`manifest
    ensures Updated(before, doc.manifest, earlier + [k], v, crates)
    ensures ctx.ops == old(ctx.ops) + EntryOps(owner, before, k, v, crates)
    ensures ctx.errors == old(ctx.errors) + EntryIssues(owner, before, k, crates)
  {
    hide SameShape, HasEntry, Lookup, SetInfo, Requirement;
    UpdatedStep(before, doc.manifest, earlier, k, v, crates);
    if k.name !in crates { return; }
    var info := Lookup(doc.manifest, k);
    if info.Plain? {
      ctx.errors := ctx.errors + [NotATable(owner, k.name)];
    } else if "version" in info.fields {
      ctx.ops := ctx.ops + [BumpedDependency(owner, k.name, info.fields["version"], Requirement(v))];
      doc.manifest := SetInfo(doc.manifest, k, Fields(info.fields["version" := Requirement(v)]));
    }
  }

  method BumpDependencyVersions(ctx: Context, owner: Owner, v: Version, doc: Document, crates: set<Name>)
    requires doc.manifest.Valid()
    modifies ctx, doc`manifest
    ensures Updated(old(doc.manifest), doc.manifest, CrateDeps(old(doc.manifest)), v, crates)
    ensures ctx.ops == old(ctx.ops) + DependencyOps(owner, old(doc.manifest), CrateDeps(old(doc.manifest)), v, crates)
    ensures ctx.errors == old(ctx.errors) + DependencyIssues(owner, old(doc.manifest), CrateDeps(old(doc.manifest)),
              crates)
  {
    hide Updated, HasEntry, EntryOps, EntryIssues, CrateDeps, Manifest.Valid;
    ghost var before := doc.manifest;
    var ks := CrateDeps(doc.manifest);
    UpdatedNothing(before, v, crates);
    CrateDepsNoDup(before);
    for i := 0 to |ks|
      invariant Updated(before, doc.manifest, ks[..i], v, crates)
      invariant ctx.ops == old(ctx.ops) + DependencyOps(owner, before, ks[..i], v, crates)
      invariant ctx.errors == old(ctx.errors) + DependencyIssues(owner, before, ks[..i], crates)
    {
      assert ks[..i + 1] == ks[..i] + [ks[i]];
      CrateDepsComplete(before, ks[i]);
      NotYet(ks, i);
      BumpEntry(ctx, owner, v, doc, crates, ks[i], before, ks[..i]);
    }
    assert ks[..|ks|] == ks;
  }

  // ---- one document, and the whole workspace ----

  /** No workspace crate is depended on by a bare version string. */
  ghost predicate Clean(m: Manifest, crates: set<Name>) {
    forall k | HasEntry(m, k) && k.name in crates :: !Lookup(m, k).Plain?
  }

  /** `after` is `before` with its own version set to `v` and every versioned entry of a workspace crate, in whichever
      table, requiring `v`. */
  ghost predicate Rewritten(before: Manifest, after: Manifest, v: Version, crates: set<Name>) {
    && SameShape(before, after) && after.version == NewVersion(before.version, v)
    && forall k | HasEntry(before, k) ::
        HasEntry(after, k) &&
        Lookup(after, k) == if k.name in crates then NewInfo(Lookup(before, k), v) else Lookup(before, k)
  }

  lemma {:induction false} IssuesFromEntries(owner: Owner, m: Manifest, ks: seq<Key>, crates: set<Name>)
    requires HasAll(m, ks)
    ensures DependencyIssues(owner, m, ks, crates) == [] <==> forall k | k in ks && k.name in crates ::
              !Lookup(m, k).Plain?
  {
    hide HasEntry, Lookup;
    if ks != [] {
      var r := ks[..|ks| - 1];
      assert ks == r + [ks[|ks| - 1]];
      IssuesFromEntries(owner, m, r, crates);
    }
  }

  lemma {:induction false} OpsFromEntries(owner: Owner, m: Manifest, ks: seq<Key>, v: Version, crates: set<Name>,
                                          op: Operation)
    requires HasAll(m, ks)
    ensures op in DependencyOps(owner, m, ks, v, crates) <==>
            exists k :: k in ks && k.name in crates && Versioned(Lookup(m, k)) &&
                op == Announcement(owner, k, Lookup(m, k), v)
  {
    hide HasEntry, Lookup, Versioned, Announcement;
    if ks != [] {
      var r := ks[..|ks| - 1];
      assert ks == r + [ks[|ks| - 1]];
      OpsFromEntries(owner, m, r, v, crates, op);
    }
  }

  /** The announced operations are exactly the updates that are made. */
  lemma OpsAnnounceUpdates(owner: Owner, m: Manifest, v: Version, crates: set<Name>, op: Operation)
    requires m.Valid()
    ensures op in DependencyOps(owner, m, CrateDeps(m), v, crates) <==>
            exists k :: Announces(owner, m, k, v, crates, op)
    ensures |DependencyOps(owner, m, CrateDeps(m), v, crates)| == |UpdatedKeys(m, CrateDeps(m), crates)|
  {
    hide HasEntry, Lookup, CrateDeps, Manifest.Valid, DependencyOps, Versioned, Announcement, Announces, UpdatedKeys;
    forall k
      ensures k in CrateDeps(m) <==> HasEntry(m, k)
      ensures Announces(owner, m, k, v, crates, op) <==>
                HasEntry(m, k) && k.name in crates && Versioned(Lookup(m, k)) &&
                    op == Announcement(owner, k, Lookup(m, k), v)
    {
      CrateDepsComplete(m, k);
      AnnouncesMeans(owner, m, k, v, crates, op);
    }
    OpsFromEntries(owner, m, CrateDeps(m), v, crates, op);
    CrateDepsNoDup(m);
    OpsCount(owner, m, CrateDeps(m), v, crates);
  }

  /** `op` announces the update of the entry at `k`: from the requirement that stands there to the new one. */
  ghost predicate Announces(owner: Owner, m: Manifest, k: Key, v: Version, crates: set<Name>, op: Operation) {
    && HasEntry(m, k) && k.name in crates && Lookup(m, k).Fields? && "version" in Lookup(m, k).fields
    && op == BumpedDependency(owner, k.name, Lookup(m, k).fields["version"], Requirement(v))
  }

  lemma AnnouncesMeans(owner: Owner, m: Manifest, k: Key, v: Version, crates: set<Name>, op: Operation)
    ensures Announces(owner, m, k, v, crates, op) <==>
              HasEntry(m, k) && k.name in crates && Versioned(Lookup(m, k)) &&
                  op == Announcement(owner, k, Lookup(m, k), v)
  {
    hide HasEntry, Lookup, Requirement;
  }

  /** The entries that an update touches. */
  ghost function UpdatedKeys(m: Manifest, ks: seq<Key>, crates: set<Name>): set<Key> {
    set k | k in ks && Touched(m, k, crates)
  }

  /** The entry at `k` is one that an update touches. */
  predicate Touched(m: Manifest, k: Key, crates: set<Name>) {
    HasEntry(m, k) && k.name in crates && Lookup(m, k).Fields? && "version" in Lookup(m, k).fields
  }

  lemma UpdatedKeysStep(m: Manifest, r: seq<Key>, k: Key, crates: set<Name>)
    requires k !in r
    ensures |UpdatedKeys(m, r + [k], crates)| == |UpdatedKeys(m, r, crates)| + if Touched(m, k, crates) then 1 else 0
  {
    hide Touched;
    var before, after := UpdatedKeys(m, r, crates), UpdatedKeys(m, r + [k], crates);
    assert k !in before;
    if Touched(m, k, crates) {
      assert after == before + {k};
    } else {
      assert after == before;
    }
  }

  lemma {:induction false} OpsCount(owner: Owner, m: Manifest, ks: seq<Key>, v: Version, crates: set<Name>)
    requires NoDup(ks)
    ensures |DependencyOps(owner, m, ks, v, crates)| == |UpdatedKeys(m, ks, crates)|
  {
    hide HasEntry, Lookup, Announcement, UpdatedKeys, NoDup;
    if ks == [] {
      NoUpdatedKeys(m, crates);
    } else {
      var r, k := ks[..|ks| - 1], ks[|ks| - 1];
      assert ks == r + [k];
      LastIsNew(ks);
      OpsCount(owner, m, r, v, crates);
      UpdatedKeysStep(m, r, k, crates);
    }
  }

  lemma NoUpdatedKeys(m: Manifest, crates: set<Name>)
    ensures UpdatedKeys(m, [], crates) == {}
  {
  }

  lemma LastIsNew(ks: seq<Key>)
    requires NoDup(ks) && ks != []
    ensures NoDup(ks[..|ks| - 1]) && ks[|ks| - 1] !in ks[..|ks| - 1]
  {
  }

  lemma {:induction false} IssuesMember(owner: Owner, m: Manifest, ks: seq<Key>, crates: set<Name>, issue: Issue)
    requires HasAll(m, ks)
    ensures issue in DependencyIssues(owner, m, ks, crates) <==>
            exists k :: k in ks && k.name in crates && Lookup(m, k).Plain? && issue == NotATable(owner, k.name)
  {
    hide HasEntry, Lookup;
    if ks != [] {
      var r := ks[..|ks| - 1];
      assert ks == r + [ks[|ks| - 1]];
      IssuesMember(owner, m, r, crates, issue);
    }
  }

  /** The recorded errors name exactly the workspace crates whose entry is a bare string. */
  lemma IssuesNameStrings(owner: Owner, m: Manifest, crates: set<Name>, issue: Issue)
    requires m.Valid()
    ensures issue in DependencyIssues(owner, m, CrateDeps(m), crates) <==>
            exists k :: HasEntry(m, k) && k.name in crates && Lookup(m, k).Plain? && issue == NotATable(owner, k.name)
  {
    hide HasEntry, Lookup, CrateDeps, Manifest.Valid, DependencyIssues;
    forall k
      ensures k in CrateDeps(m) <==> HasEntry(m, k)
    {
      CrateDepsComplete(m, k);
    }
    IssuesMember(owner, m, CrateDeps(m), crates, issue);
  }

  lemma IssuesIffUnclean(owner: Owner, m: Manifest, crates: set<Name>)
    requires m.Valid()
    ensures DependencyIssues(owner, m, CrateDeps(m), crates) == [] <==> Clean(m, crates)
  {
    hide HasEntry, Lookup, CrateDeps, Manifest.Valid, DependencyIssues;
    forall k
      ensures k in CrateDeps(m) <==> HasEntry(m, k)
    {
      CrateDepsComplete(m, k);
    }
    IssuesFromEntries(owner, m, CrateDeps(m), crates);
  }

  /** Setting the version and then the entries is the full rewrite. */
  lemma UpdatedIsRewritten(before: Manifest, after: Manifest, v: Version, crates: set<Name>)
    requires before.Valid()
    requires var versioned := before.(version := NewVersion(before.version, v));
             Updated(versioned, after, CrateDeps(versioned), v, crates)
    ensures Rewritten(before, after, v, crates)
  {
    hide CrateDeps, Lookup, Manifest.Valid;
    var versioned := before.(version := NewVersion(before.version, v));
    SameShapeSameDeps(before, versioned);
    forall k | HasEntry(before, k)
      ensures HasEntry(after, k)
      ensures Lookup(after, k) == if k.name in crates then NewInfo(Lookup(before, k), v) else Lookup(before, k)
    {
      VersionAside(before, versioned.version, k);
      CrateDepsComplete(before, k);
    }
  }

  lemma VersionAside(m: Manifest, p: PackageVersion, k: Key)
    ensures HasEntry(m, k) <==> HasEntry(m.(version := p), k)
    ensures HasEntry(m, k) ==> Lookup(m.(version := p), k) == Lookup(m, k)
  {
  }

  lemma ValidAside(m: Manifest, p: PackageVersion)
    requires m.Valid()
    ensures m.(version := p).Valid()
  {
  }

  lemma CleanAside(m: Manifest, p: PackageVersion, crates: set<Name>)
    ensures Clean(m.(version := p), crates) <==> Clean(m, crates)
  {
    hide HasEntry, Lookup;
    forall k
      ensures HasEntry(m, k) <==> HasEntry(m.(version := p), k)
      ensures HasEntry(m, k) ==> Lookup(m.(version := p), k) == Lookup(m, k)
    {
      VersionAside(m, p, k);
    }
  }

  /** Both bumps of one manifest. */
  method BumpDocument(ctx: Context, owner: Owner, v: Version, doc: Document, crates: set<Name>)
    requires doc.manifest.Valid()
    modifies ctx, doc`manifest
    ensures Rewritten(old(doc.manifest), doc.manifest, v, crates)
    ensures ctx.errors == [] <==> old(ctx.errors) == [] && Clean(old(doc.manifest), crates)
  {
    hide CrateDeps, DependencyIssues, DependencyOps, Clean, Rewritten, Updated, Manifest.Valid;
    ghost var before := doc.manifest;
    BumpPackageVersion(ctx, owner, v, doc);
    ghost var versioned := doc.manifest;
    ValidAside(before, versioned.version);
    CleanAside(before, versioned.version, crates);
    IssuesIffUnclean(owner, versioned, crates);
    BumpDependencyVersions(ctx, owner, v, doc, crates);
    UpdatedIsRewritten(before, doc.manifest, v, crates);
  }

  /** The version that is written: `dev` decides about the build metadata, unless it is not given. */
  function Final(bumped: Version, dev: Option<bool>): Version {
    match dev
    case None => bumped
    case Some(d) => bumped.(build := if d then Some("dev") else None)
  }

  // ---- what is written, read back ----

  /** A package that states a version of its own now states `v`; one that has none, or inherits it, is as before. */
  ghost predicate VersionCarries(before: PackageVersion, after: PackageVersion, v: Version) {
    match before
    case NoVersion => after == before
    case Literal(_) => after.Literal? && Parse(after.text) == Some(v)
    case Inherited(workspace) => if workspace then after == before else after.Literal? && Parse(after.text) == Some(v)
  }

  /** A versioned entry of a workspace crate now asks for `v` and keeps its other fields; any other entry is as
      before. */
  ghost predicate EntryCarries(before: Info, after: Info, v: Version, member: bool) {
    if member && before.Fields? && "version" in before.fields then
      && after.Fields? && "version" in after.fields && AsksFor(after.fields["version"], v)
      && after.fields - {"version"} == before.fields - {"version"}
    else after == before
  }

  ghost predicate Carries(before: Manifest, after: Manifest, v: Version, crates: set<Name>) {
    && VersionCarries(before.version, after.version, v)
    && forall k | HasEntry(before, k) ::
        HasEntry(after, k) && EntryCarries(Lookup(before, k), Lookup(after, k), v, k.name in crates)
  }

  /** What a rewrite writes can be read back as the version it was given. */
  lemma RewrittenCarries(before: Manifest, after: Manifest, v: Version, crates: set<Name>)
    requires Rewritten(before, after, v, crates) && WellFormed(v)
    ensures Carries(before, after, v, crates)
  {
    hide SameShape, HasEntry, Lookup, Parse, Text, Requirement, AsksFor;
    TextReads(v);
    RequirementAsks(v);
  }

  ghost predicate Distinct(root: Document, docs: seq<Document>) {
    root !in docs && NoDup(docs)
  }

  /** All or nothing: with an error, or in a dry run, no file is written. Otherwise every file is written, and the root
      and every crate are completely rewritten to the new version. */
  method BumpVersion(root: Document, names: seq<Name>, docs: seq<Document>, dryRun: bool, bumped: Version,
                     dev: Option<bool>)
    returns (ok: bool)
    requires |names| == |docs| && Distinct(root, docs)
    requires root.manifest.Valid() && forall i | 0 <= i < |docs| :: docs[i].manifest.Valid()
    modifies root, docs
    ensures ok <==> Clean(old(root.manifest), Elements(names)) &&
                    forall i | 0 <= i < |docs| :: Clean(old(docs[i].manifest), Elements(names))
    ensures Rewritten(old(root.manifest), root.manifest, Final(bumped, dev), Elements(names))
    ensures forall i | 0 <= i < |docs| ::
              Rewritten(old(docs[i].manifest), docs[i].manifest, Final(bumped, dev), Elements(names))
    ensures ok && !dryRun ==>
              root.saved == root.manifest && forall i | 0 <= i < |docs| :: docs[i].saved == docs[i].manifest
    ensures !ok || dryRun ==>
              root.saved == old(root.saved) && forall i | 0 <= i < |docs| :: docs[i].saved == old(docs[i].saved)
    ensures ok && !dryRun && WellFormed(bumped) ==>
              var build := if dev.None? then bumped.build else if dev.value then Some("dev") else None;
              var v := Version(bumped.major, bumped.minor, bumped.patch, bumped.prerelease, build);
              && Carries(old(root.manifest), root.saved, v, Elements(names))
              && forall i | 0 <= i < |docs| :: Carries(old(docs[i].manifest), docs[i].saved, v, Elements(names))
  {
    hide Clean, Rewritten, Carries, Manifest.Valid;
    var ctx := new Context();
    var v, crates := Final(bumped, dev), Elements(names);
    BumpDocument(ctx, Root, v, root, crates);
    for i := 0 to |docs|
      invariant Rewritten(old(root.manifest), root.manifest, v, crates)
      invariant forall j | 0 <= j < i :: Rewritten(old(docs[j].manifest), docs[j].manifest, v, crates)
      invariant forall j | i <= j < |docs| :: docs[j].manifest == old(docs[j].manifest)
      invariant ctx.errors == [] <==> Clean(old(root.manifest), crates) &&
                                      forall j | 0 <= j < i :: Clean(old(docs[j].manifest), crates)
      invariant root.saved == old(root.saved) && forall j | 0 <= j < |docs| :: docs[j].saved == old(docs[j].saved)
    {
      BumpDocument(ctx, Crate(names[i]), v, docs[i], crates);
    }
    ok := ctx.Finish();
    if !ok || dryRun { return; }
    SaveAll(root, docs);
    if WellFormed(v) {
      RewrittenCarries(old(root.manifest), root.manifest, v, crates);
      forall i | 0 <= i < |docs|
        ensures Carries(old(docs[i].manifest), docs[i].manifest, v, crates)
      {
        RewrittenCarries(old(docs[i].manifest), docs[i].manifest, v, crates);
      }
    }
  }

  method SaveAll(root: Document, docs: seq<Document>)
    requires Distinct(root, docs)
    modifies root`saved, docs`saved
    ensures root.saved == root.manifest && forall i | 0 <= i < |docs| :: docs[i].saved == docs[i].manifest
  {
    root.Save();
    for i := 0 to |docs|
      invariant root.saved == root.manifest && forall j | 0 <= j < i :: docs[j].saved == docs[j].manifest
    {
      docs[i].Save();
    }
  }

  // ---- what a rewrite means ----

  /** Entry by entry: versioned entries of workspace crates get the common requirement, pinned exactly for pre-releases,
      and keep their other fields; every other entry is untouched. */
  lemma RewrittenEntry(before: Manifest, after: Manifest, v: Version, crates: set<Name>, k: Key)
    requires Rewritten(before, after, v, crates) && HasEntry(before, k)
    ensures HasEntry(after, k)
    ensures k.name in crates && Versioned(Lookup(before, k)) ==>
              && Versioned(Lookup(after, k))
              && Lookup(after, k).fields["version"] == Requirement(v)
              && (IsPinned(Lookup(after, k).fields["version"]) <==> v.prerelease.Some?)
              && (WellFormed(v) ==> AsksFor(Lookup(after, k).fields["version"], v))
              && Lookup(after, k).fields - {"version"} == Lookup(before, k).fields - {"version"}
    ensures k.name !in crates || !Versioned(Lookup(before, k)) ==> Lookup(after, k) == Lookup(before, k)
  {
    hide SameShape, HasEntry, Lookup;
    PinnedIffPrerelease(v);
    if WellFormed(v) { RequirementAsks(v); }
  }

  /** Bumping touches no dependency: the tables list the same crates in the same order. */
  lemma RewrittenKeepsDeps(before: Manifest, after: Manifest, v: Version, crates: set<Name>)
    requires Rewritten(before, after, v, crates) && before.Valid()
    ensures after.Valid() && CrateDeps(after) == CrateDeps(before)
  {
    SameShapeSameDeps(before, after);
  }

  /** A manifest is determined by its shape, its version and its entries. */
  lemma SameEntriesSameManifest(a: Manifest, b: Manifest)
    requires SameShape(a, b) && a.version == b.version
    requires forall k | HasEntry(a, k) :: HasEntry(b, k) && Lookup(a, k) == Lookup(b, k)
    ensures a == b
  {
    SameEntriesSameSection(a, b, None);
    forall t | t in a.targets
      ensures a.targets[t] == b.targets[t]
    {
      SameEntriesSameSection(a, b, Some(t));
    }
    assert a.targets == b.targets;
  }

  lemma SameEntriesSameSection(a: Manifest, b: Manifest, target: Option<string>)
    requires SameShape(a, b) && HasSection(a, target)
    requires forall k | HasEntry(a, k) :: HasEntry(b, k) && Lookup(a, k) == Lookup(b, k)
    ensures SectionAt(a, target) == SectionAt(b, target)
  {
    var s, t := SectionAt(a, target), SectionAt(b, target);
    forall kind: Kind
      ensures s.Of(kind) == t.Of(kind)
    {
      SameEntriesSameTable(a, b, target, kind);
    }
    assert s.Of(Direct) == t.Of(Direct) && s.Of(Dev) == t.Of(Dev) && s.Of(Build) == t.Of(Build);
  }

  lemma SameEntriesSameTable(a: Manifest, b: Manifest, target: Option<string>, kind: Kind)
    requires SameShape(a, b) && HasSection(a, target)
    requires forall k | HasEntry(a, k) :: HasEntry(b, k) && Lookup(a, k) == Lookup(b, k)
    ensures SectionAt(a, target).Of(kind) == SectionAt(b, target).Of(kind)
  {
    var p, q := SectionAt(a, target).Of(kind), SectionAt(b, target).Of(kind);
    assert SameTable(p, q);
    forall n | n in p.infos
      ensures p.infos[n] == q.infos[n]
    {
      var k := Key(target, kind, n);
      assert HasEntry(a, k) && Lookup(a, k) == Lookup(b, k);
    }
    assert p.infos == q.infos;
  }

  /** Bumping twice leaves what the second bump alone would leave. */
  lemma LastBumpWins(a: Manifest, b: Manifest, c: Manifest, v: Version, w: Version, crates: set<Name>)
    requires Rewritten(a, b, v, crates) && Rewritten(b, c, w, crates)
    ensures Rewritten(a, c, w, crates)
  {
    hide HasEntry, Lookup, Requirement, Text, SameShape;
    SameShapeTrans(a, b, c);
  }

  /** The rewrite has one outcome, and repeating it changes nothing. */
  lemma RewriteIsDetermined(a: Manifest, b: Manifest, c: Manifest, v: Version, crates: set<Name>)
    requires Rewritten(a, b, v, crates)
    requires Rewritten(a, c, v, crates) || Rewritten(b, c, v, crates)
    ensures c == b
  {
    if Rewritten(b, c, v, crates) { LastBumpWins(a, b, c, v, v, crates); }
    SameShapeSym(a, b);
    SameShapeTrans(b, a, c);
    forall k | HasEntry(b, k)
      ensures HasEntry(c, k) && Lookup(b, k) == Lookup(c, k)
    {
      SameShapeSameEntries(a, b, k);
    }
    hide HasEntry, Lookup, SameShape, Requirement, Text;
    SameEntriesSameManifest(b, c);
  }

  lemma SameShapeSym(a: Manifest, b: Manifest)
    requires SameShape(a, b)
    ensures SameShape(b, a)
  {
  }
}
