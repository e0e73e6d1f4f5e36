/** Patching a site's YAML file and rolling it back (app/patching/apply.py, app/config/loader.py). */
module SitePatching {
  import opened Results
  import opened Trees
  import opened Patch
  import opened DryRun
  import opened Collector

  /** The libraries: the YAML loader (None where it raises) and dumper, schema validation, text rendering. */
  datatype Platform = Platform(load: string -> Option<Tree>, dump: Tree -> string, validate: Validate, show: Show)

  /** What is dumped loads as itself. */
  ghost predicate RoundTrips(pf: Platform) {
    forall t :: pf.load(pf.dump(t)) == Some(t)
  }

  /** The name of a backup file: the site's directory and the second it was made in. */
  datatype Slot = Slot(site: string, at: int)

  /** The YAML texts by file stem, and the backups. */
  datatype Disk = Disk(texts: map<string, string>, backups: map<Slot, string>)

  datatype ApplyError = FileMissing | NotYaml | NotApplicable(cause: PatchError) | SchemaViolation

  /** `yaml.safe_load(text) or {}` */
  function Document(pf: Platform, text: string): Option<Tree> {
    match pf.load(text)
    case None => None
    case Some(t) => Some(OrEmpty(t))
  }

  /** The patch applies to a document and what comes out passes the schema. */
  predicate Fits(pf: Platform, base: Tree, ops: seq<PatchOp>) {
    ApplyPatch(base, ops).Success? && pf.validate(ApplyPatch(base, ops).value).Some?
  }

  /** The document that is written, or why none is. */
  function PatchedDocument(pf: Platform, texts: map<string, string>, site: string,
                           ops: seq<PatchOp>): Result<Tree, ApplyError> {
    if site !in texts then Failure(FileMissing)
    else match Document(pf, texts[site])
      case None => Failure(NotYaml)
      case Some(base) =>
        match ApplyPatch(base, ops)
        case Failure(e) => Failure(NotApplicable(e))
        case Success(patched) => if pf.validate(patched).None? then Failure(SchemaViolation) else Success(patched)
  }

  /** The disk after a patched document has been written, the old text backed up first. */
  function Saved(pf: Platform, disk: Disk, site: string, doc: Tree, now: int): Disk
    requires site in disk.texts
  {
    Disk(disk.texts[site := pf.dump(doc)], disk.backups[Slot(site, now) := disk.texts[site]])
  }

  function Restored(disk: Disk, site: string, slot: Slot): Disk
    requires slot in disk.backups
  {
    disk.(texts := disk.texts[site := disk.backups[slot]])
  }

  /** load_site_config returns: the text loads and the document validates. */
  predicate Loads(pf: Platform, text: string) {
    pf.load(text).Some? && pf.validate(pf.load(text).value).Some?
  }

  /** load_all_sites returns. */
  predicate AllLoad(pf: Platform, texts: map<string, string>) {
    forall f | f in texts :: Loads(pf, texts[f])
  }

  /** Some file configures the site. */
  predicate Configured(pf: Platform, texts: map<string, string>, site: string)
    requires AllLoad(pf, texts)
  {
    exists f | f in texts :: pf.validate(pf.load(texts[f]).value).value.site == site
  }

  class ConfigStore {
    var texts: map<string, string>
    var backups: map<Slot, string>

    ghost function Contents(): Disk
      reads this
    {
      Disk(texts, backups)
    }

    constructor (texts: map<string, string>)
      ensures Contents() == Disk(texts, map[])
    {
      this.texts, backups := texts, map[];
    }

    method ApplyPatchToFile(pf: Platform, site: string, ops: seq<PatchOp>, now: int)
      returns (r: Result<Slot, ApplyError>)
      modifies this
      ensures var doc := PatchedDocument(pf, old(texts), site, ops);
              match doc
              case Failure(e) => r == Failure(e) && Contents() == old(Contents())
              case Success(d) => r == Success(Slot(site, now)) && Contents() == Saved(pf, old(Contents()), site, d, now)
    {
      if site !in texts {
        return Failure(FileMissing);
      }
      var loaded := pf.load(texts[site]);
      if loaded.None? {
        return Failure(NotYaml);
      }
      var patched := ApplyPatch(OrEmpty(loaded.value), ops);
      if patched.Failure? {
        return Failure(NotApplicable(patched.error));
      }
      if pf.validate(patched.value).None? {
        return Failure(SchemaViolation);
      }
      var slot := Slot(site, now);
      backups := backups[slot := texts[site]];
      texts := texts[site := pf.dump(patched.value)];
      r := Success(slot);
    }

    /** False where the backup does not exist. */
    method RollbackFromBackup(site: string, slot: Slot) returns (ok: bool)
      modifies this
      ensures ok == (slot in old(backups))
      ensures Contents() == if ok then Restored(old(Contents()), site, slot) else old(Contents())
    {
      ok := slot in backups;
      if ok {
        texts := texts[site := backups[slot]];
      }
    }

    /** load_all_sites: None where a file does not load or validate, else the sites that are configured. */
    method LoadAllSites(pf: Platform) returns (sites: Option<set<string>>)
      ensures sites.Some? <==> AllLoad(pf, texts)
      ensures sites.Some? ==> forall site :: site in sites.value <==> Configured(pf, texts, site)
    {
      var todo, found := texts.Keys, {};
      while todo != {}
        invariant todo <= texts.Keys
        invariant forall f | f in texts && f !in todo :: Loads(pf, texts[f])
        invariant forall site :: site in found <==>
                    exists f | f in texts && f !in todo :: pf.validate(pf.load(texts[f]).value).value.site == site
        decreases todo
      {
        var f :| f in todo;
        var raw := pf.load(texts[f]);
        if raw.None? {
          return None;
        }
        var config := pf.validate(raw.value);
        if config.None? {
          return None;
        }
        todo, found := todo - {f}, found + {config.value.site};
      }
      sites := Some(found);
    }
  }

  // ---------- what writing and rolling back do ----------

  /** Rolling a written patch back restores every text, byte for byte. */
  lemma RollbackRestores(pf: Platform, disk: Disk, site: string, doc: Tree, now: int)
    requires site in disk.texts
    ensures Restored(Saved(pf, disk, site, doc, now), site, Slot(site, now)).texts == disk.texts
  {
  }

  /** Writing a document that passes the schema keeps every file loadable; other files are as they were. */
  lemma WritingKeepsAllLoad(pf: Platform, disk: Disk, site: string, ops: seq<PatchOp>, now: int)
    requires RoundTrips(pf) && AllLoad(pf, disk.texts)
    requires PatchedDocument(pf, disk.texts, site, ops).Success?
    ensures AllLoad(pf, Saved(pf, disk, site, PatchedDocument(pf, disk.texts, site, ops).value, now).texts)
  {
  }

  /** What a file's text becomes when patches are written to it one after another. */
  function Replay(pf: Platform, text: string, patches: seq<seq<PatchOp>>): string {
    if patches == [] then text
    else
      var before := Replay(pf, text, patches[..|patches| - 1]);
      match Document(pf, before)
      case None => before
      case Some(base) =>
        match ApplyPatch(base, patches[|patches| - 1])
        case Failure(_) => before
        case Success(doc) => pf.dump(doc)
  }

  function Joined(patches: seq<seq<PatchOp>>): seq<PatchOp> {
    if patches == [] then [] else Joined(patches[..|patches| - 1]) + patches[|patches| - 1]
  }

  /** Each patch in turn applied to what its predecessors wrote. */
  ghost predicate AllApply(pf: Platform, text: string, patches: seq<seq<PatchOp>>) {
    patches == [] ||
    var init, last := patches[..|patches| - 1], patches[|patches| - 1];
    && AllApply(pf, text, init)
    && Document(pf, Replay(pf, text, init)).Some?
    && Fits(pf, Document(pf, Replay(pf, text, init)).value, last)
  }

  /** Patching a document never yields something `or {}` would replace. */
  lemma {:induction false} PatchedIsKept(t: Tree, ops: seq<PatchOp>)
    requires OrEmpty(t) == t && ApplyPatch(t, ops).Success?
    ensures OrEmpty(ApplyPatch(t, ops).value) == ApplyPatch(t, ops).value
    decreases |ops|
  {
    if ops != [] {
      var next := ApplyOne(t, ops[0]).value;
      assert next.Dict?;
      PatchedIsKept(next, ops[1..]);
    }
  }

  /** As parsed documents, writing patches one after another is applying their concatenation. */
  lemma {:induction false} ReplayIsOnePatch(pf: Platform, text: string, patches: seq<seq<PatchOp>>)
    requires RoundTrips(pf)
    requires Document(pf, text).Some? && AllApply(pf, text, patches)
    ensures Document(pf, Replay(pf, text, patches)).Some?
    ensures ApplyPatch(Document(pf, text).value, Joined(patches))
        == Success(Document(pf, Replay(pf, text, patches)).value)
  {
    if patches != [] {
      var init, last := patches[..|patches| - 1], patches[|patches| - 1];
      ReplayIsOnePatch(pf, text, init);
      var base := Document(pf, Replay(pf, text, init)).value;
      ApplyPatchConcat(Document(pf, text).value, Joined(init), last);
      PatchedIsKept(base, last);
    }
  }
}
