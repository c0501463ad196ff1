/**
 The incremental verification planner of scripts/runtime_incremental.py.  A
 digest is the sequence of strings it was computed from, which makes it injective;
 the lists of a snapshot are kept as maps and sets, so their order is not modelled.
 */
module RuntimePlan {
  import opened Common

  const SCHEMA := 2

  datatype Family = Production | CI

  datatype Digest = Digest(inputs: seq<string>)

  datatype Item = Item(name: string, fingerprint: string, languages: Option<string>)

  /** An entry as it is read from JSON; None stands for a missing or wrongly typed value. */
  datatype Entry = Entry(name: Option<string>, fingerprint: Option<string>, languages: Option<string>)

  datatype Row = Row(item: Item, verification: Digest, changed: bool, verify: bool)

  type Inventory = map<string, Item>
  type Rows = map<string, Row>

  // Inventories.

  predicate LowerOrDigit(ch: char) {
    'a' <= ch <= 'z' || '0' <= ch <= '9' || ch == '-'
  }

  predicate NameOk(name: string) {
    || ("type-" < name && forall i :: 5 <= i < |name| ==> LowerOrDigit(name[i]))
    || ("ci-" < name && forall i :: 3 <= i < |name| ==> LowerOrDigit(name[i]))
  }

  predicate FingerprintOk(fp: string) {
    "sha256:" <= fp && |fp| == 71 && forall i :: 7 <= i < 71 ==> '0' <= fp[i] <= '9' || 'a' <= fp[i] <= 'f'
  }

  predicate EntryOk(e: Entry, family: Family) {
    && e.name.Some? && NameOk(e.name.value)
    && e.fingerprint.Some? && FingerprintOk(e.fingerprint.value)
    && (family.Production? ==> e.languages.Some?)
  }

  function ItemOf(e: Entry): Item
    requires e.name.Some? && e.fingerprint.Some?
  {
    Item(e.name.value, e.fingerprint.value, e.languages)
  }

  /** A nonempty list of well-formed entries with distinct names. */
  ghost predicate InventoryOk(entries: seq<Entry>, family: Family) {
    && entries != []
    && (forall i :: 0 <= i < |entries| ==> EntryOk(entries[i], family))
    && (forall i, j :: 0 <= i < j < |entries| ==> entries[i].name != entries[j].name)
  }

  predicate Stores(inventory: Inventory, e: Entry, family: Family) {
    EntryOk(e, family) && e.name.value in inventory && inventory[e.name.value] == ItemOf(e)
  }

  predicate Listed(entries: seq<Entry>, k: nat, name: string)
    requires k <= |entries|
  {
    exists i :: 0 <= i < k && entries[i].name == Some(name)
  }

  /** Every item is filed under its own name. */
  predicate Named(inventory: Inventory) {
    forall name :: name in inventory ==> inventory[name].name == name
  }

  /** The inventory holds exactly the first `k` entries, under their distinct names. */
  ghost predicate Holds(inventory: Inventory, entries: seq<Entry>, k: nat, family: Family)
    requires k <= |entries|
  {
    && (forall i :: 0 <= i < k ==> Stores(inventory, entries[i], family))
    && (forall i, j :: 0 <= i < j < k ==> entries[i].name != entries[j].name)
    && (forall name :: name in inventory ==> Listed(entries, k, name))
  }

  method ValidateInventory(entries: Option<seq<Entry>>, family: Family) returns (r: Option<Inventory>)
    ensures r.Some? <==> entries.Some? && InventoryOk(entries.value, family)
    ensures r.Some? ==> Holds(r.value, entries.value, |entries.value|, family) && Named(r.value)
  {
    if entries.None? || entries.value == [] { return None; }
    var result: Inventory := map[];
    var list := entries.value;
    for k := 0 to |list|
      invariant Holds(result, list, k, family) && Named(result)
    {
      var e := list[k];
      if !EntryOk(e, family) { return None; }
      if e.name.value in result {
        assert Listed(list, k, e.name.value);
        return None;
      }
      HoldsOneMore(result, list, k, family);
      result := result[e.name.value := ItemOf(e)];
    }
    return Some(result);
  }

  lemma {:induction false} HoldsOneMore(inventory: Inventory, list: seq<Entry>, k: nat, family: Family)
    requires k < |list| && Holds(inventory, list, k, family)
    requires EntryOk(list[k], family) && list[k].name.value !in inventory
    ensures Holds(inventory[list[k].name.value := ItemOf(list[k])], list, k + 1, family)
  {
    var inventory' := inventory[list[k].name.value := ItemOf(list[k])];
    forall i | 0 <= i < k + 1 ensures Stores(inventory', list[i], family) && (i < k ==> list[i].name != list[k].name) {
      if i < k { assert Stores(inventory, list[i], family); }
    }
    forall name | name in inventory' ensures Listed(list, k + 1, name) {
      if name in inventory { assert Listed(list, k, name); } else { assert list[k].name == Some(name); }
    }
  }

  // The plan.

  /** The texts of a comma-separated list. */
  function Split(text: string): (parts: seq<string>)
    ensures parts != []
  {
    if text == "" then [""]
    else
      var rest := Split(text[1..]);
      if text[0] == ',' then [""] + rest else [[text[0]] + rest[0]] + rest[1..]
  }

  /** Digests of the tracked files outside the images. */
  datatype Inputs = Inputs(workflow: string, sandbox: string, goModule: string)

  function Joined(parts: seq<string>): string {
    if parts == [] then "" else if |parts| == 1 then parts[0] else parts[0] + [','] + Joined(parts[1..])
  }

  lemma {:induction false} JoinedOneMore(ch: char, parts: seq<string>)
    requires parts != []
    ensures Joined([[ch] + parts[0]] + parts[1..]) == [ch] + Joined(parts)
  {
    var longer := [[ch] + parts[0]] + parts[1..];
    assert longer[1..] == parts[1..];
    if |parts| > 1 {
      var rest := [','] + Joined(parts[1..]);
      assert Joined(longer) == longer[0] + rest && Joined(parts) == parts[0] + rest;
    }
  }

  /** The parts are what stands between the commas. */
  lemma {:induction false} SplitJoins(text: string)
    ensures Joined(Split(text)) == text && forall part :: part in Split(text) ==> ',' !in part
  {
    if text != "" {
      var rest := Split(text[1..]);
      SplitJoins(text[1..]);
      if text[0] == ',' {
        assert ([""] + rest)[1..] == rest;
      } else {
        JoinedOneMore(text[0], rest);
      }
    }
  }

  predicate UsesGo(item: Item) {
    "go" in Split(if item.languages.Some? then item.languages.value else "") || item.name == "ci-go"
  }

  function VerificationOf(item: Item, inputs: Inputs): Digest {
    Digest([item.fingerprint, inputs.workflow] + if UsesGo(item) then [inputs.goModule] else [])
  }

  function RowOf(item: Item, inputs: Inputs, previous: Rows, force: bool): Row {
    var verification := VerificationOf(item, inputs);
    Row(item, verification,
        force || item.name !in previous || previous[item.name].item.fingerprint != item.fingerprint,
        force || item.name !in previous || previous[item.name].verification != verification)
  }

  function RowsOf(inventory: Inventory, inputs: Inputs, previous: Rows, force: bool): Rows {
    map name | name in inventory :: RowOf(inventory[name], inputs, previous, force)
  }

  method PlanFamily(inventory: Inventory, inputs: Inputs, previous: Rows, force: bool) returns (rows: Rows)
    ensures rows == RowsOf(inventory, inputs, previous, force)
  {
    rows := map[];
    var todo := inventory.Keys;
    while todo != {}
      invariant todo <= inventory.Keys && rows.Keys == inventory.Keys - todo
      invariant forall name :: name in rows ==> rows[name] == RowOf(inventory[name], inputs, previous, force)
      decreases todo
    {
      var name :| name in todo;
      rows := rows[name := RowOf(inventory[name], inputs, previous, force)];
      todo := todo - {name};
    }
  }

  predicate Selected(row: Row) {
    row.changed || row.verify
  }

  predicate Special(family: Family, name: string) {
    match family
    case CI => name == "ci-idris2" || name == "ci-cuda-ocelot"
    case Production => name == "type-a" || name == "type-c" || name == "type-o"
  }

  /** The rows of one matrix, by name. */
  datatype Matrices = Matrices(all: map<string, Item>, regular: map<string, Item>, cached: map<string, Item>)

  function MatricesOf(family: Family, rows: Rows): Matrices {
    Matrices(map name | name in rows && Selected(rows[name]) :: rows[name].item,
             map name | name in rows && Selected(rows[name]) && !Special(family, name) :: rows[name].item,
             map name | name in rows && Selected(rows[name]) && Special(family, name) :: rows[name].item)
  }

  datatype Outputs = Outputs(
    production: Matrices, ci: Matrices,
    hasAnyRuntime: bool, ciPythonChanged: bool, typeIChanged: bool, sandboxRequired: bool)

  datatype Snapshot = Snapshot(schema: int, production: Rows, ci: Rows, sandbox: Digest, cacheWrite: bool,
    outputs: Outputs)

  function RowsIn(s: Snapshot, family: Family): Rows {
    if family.CI? then s.ci else s.production
  }

  function MatricesIn(s: Snapshot, family: Family): Matrices {
    if family.CI? then s.outputs.ci else s.outputs.production
  }

  datatype Impact = Impact(production: Inventory, ci: Inventory, inputs: Inputs, cacheWrite: bool, force: bool)

  /** Validated inventories, with the profiles that the sandbox and mixin checks are tied to. */
  predicate Plannable(impact: Impact) {
    Named(impact.production) && Named(impact.ci) && "ci-python" in impact.ci && "type-i" in impact.production
  }

  /** A baseline of another schema is ignored. */
  function Usable(baseline: Option<Snapshot>): Option<Snapshot> {
    if baseline.Some? && baseline.value.schema == SCHEMA then baseline else None
  }

  /** The rows of a usable baseline. */
  function Previous(baseline: Option<Snapshot>, family: Family): Rows {
    if Usable(baseline).Some? then RowsIn(baseline.value, family) else map[]
  }

  predicate AnySelected(rows: Rows) {
    exists name :: name in rows && Selected(rows[name])
  }

  function OutputsOf(production: Rows, ci: Rows, sandboxRequired: bool): Outputs
    requires "ci-python" in ci && "type-i" in production
  {
    Outputs(MatricesOf(Production, production), MatricesOf(CI, ci), AnySelected(production) || AnySelected(ci),
            Selected(ci["ci-python"]), Selected(production["type-i"]), sandboxRequired)
  }

  function Plan(impact: Impact, baseline: Option<Snapshot>): Snapshot
    requires Plannable(impact)
  {
    var production := RowsOf(impact.production, impact.inputs, Previous(baseline, Production), impact.force);
    var ci := RowsOf(impact.ci, impact.inputs, Previous(baseline, CI), impact.force);
    var sandbox := Digest([impact.ci["ci-python"].fingerprint, impact.inputs.workflow, impact.inputs.sandbox]);
    var sandboxRequired := impact.force || Usable(baseline).None? || baseline.value.sandbox != sandbox;
    Snapshot(SCHEMA, production, ci, sandbox, impact.cacheWrite, OutputsOf(production, ci, sandboxRequired))
  }

  ghost predicate Reads(entries: Option<seq<Entry>>, inventory: Inventory, family: Family) {
    entries.Some? && Holds(inventory, entries.value, |entries.value|, family)
  }

  /** The selected rows of a family, reduced to what its matrices need. */
  method SelectRows(rows: Rows) returns (all: map<string, Item>)
    ensures all == map name | name in rows && Selected(rows[name]) :: rows[name].item
  {
    all := map[];
    var todo := rows.Keys;
    while todo != {}
      invariant todo <= rows.Keys
      invariant forall name :: name in all <==> name in rows && name !in todo && Selected(rows[name])
      invariant forall name :: name in all ==> all[name] == rows[name].item
      decreases todo
    {
      var name :| name in todo;
      if rows[name].changed || rows[name].verify { all := all[name := rows[name].item]; }
      todo := todo - {name};
    }
  }

  /** The special or the other entries of a family's matrix. */
  method SubsetOf(family: Family, all: map<string, Item>, cached: bool) returns (subset: map<string, Item>)
    ensures subset == map name | name in all && Special(family, name) == cached :: all[name]
  {
    subset := map[];
    var todo := all.Keys;
    while todo != {}
      invariant todo <= all.Keys
      invariant forall name :: name in subset <==> name in all && name !in todo && Special(family, name) == cached
      invariant forall name :: name in subset ==> subset[name] == all[name]
      decreases todo
    {
      var name :| name in todo;
      if Special(family, name) == cached { subset := subset[name := all[name]]; }
      todo := todo - {name};
    }
  }

  method BuildMatrices(family: Family, rows: Rows) returns (m: Matrices)
    ensures m == MatricesOf(family, rows)
  {
    var all := SelectRows(rows);
    var regular := SubsetOf(family, all, false);
    var cached := SubsetOf(family, all, true);
    m := Matrices(all, regular, cached);
  }

  lemma {:induction false} SelectedIsInMatrix(family: Family, rows: Rows, name: string)
    ensures name in MatricesOf(family, rows).all <==> name in rows && Selected(rows[name])
    ensures MatricesOf(family, rows).all != map[] <==> AnySelected(rows)
  {
    var all := MatricesOf(family, rows).all;
    if all != map[] {
      assert all.Keys != {};
      var n :| n in all.Keys;
      assert n in rows && Selected(rows[n]);
    }
    if n :| n in rows && Selected(rows[n]) { assert n in all; }
  }

  /** The outputs, read off the matrices. */
  method BuildOutputs(production: Rows, ci: Rows, sandboxRequired: bool) returns (o: Outputs)
    requires "ci-python" in ci && "type-i" in production
    ensures o == OutputsOf(production, ci, sandboxRequired)
  {
    var p := BuildMatrices(Production, production);
    var c := BuildMatrices(CI, ci);
    SelectedIsInMatrix(Production, production, "type-i");
    SelectedIsInMatrix(CI, ci, "ci-python");
    o := Outputs(p, c, p.all != map[] || c.all != map[], "ci-python" in c.all, "type-i" in p.all, sandboxRequired);
  }

  method PlanImpact(impact: Impact, baseline: Option<Snapshot>) returns (s: Snapshot)
    requires Plannable(impact)
    ensures s == Plan(impact, baseline)
  {
    var oldProduction, oldCi, oldSandbox := map[], map[], None;
    if baseline.Some? && baseline.value.schema == SCHEMA {
      oldProduction, oldCi, oldSandbox := baseline.value.production, baseline.value.ci, Some(baseline.value.sandbox);
    }
    var production := PlanFamily(impact.production, impact.inputs, oldProduction, impact.force);
    var ci := PlanFamily(impact.ci, impact.inputs, oldCi, impact.force);
    var sandbox := Digest([impact.ci["ci-python"].fingerprint, impact.inputs.workflow, impact.inputs.sandbox]);
    var outputs := BuildOutputs(production, ci, impact.force || oldSandbox != Some(sandbox));
    s := Snapshot(SCHEMA, production, ci, sandbox, impact.cacheWrite, outputs);
  }

  /** A report that can be planned: valid inventories that name the two profiles other jobs are tied to. */
  ghost predicate ReportOk(production: Option<seq<Entry>>, ci: Option<seq<Entry>>) {
    && production.Some? && InventoryOk(production.value, Production)
       && Listed(production.value, |production.value|, "type-i")
    && ci.Some? && InventoryOk(ci.value, CI) && Listed(ci.value, |ci.value|, "ci-python")
  }

  lemma {:induction false} HeldIffListed(inventory: Inventory, entries: seq<Entry>, family: Family, name: string)
    requires Holds(inventory, entries, |entries|, family)
    ensures name in inventory <==> Listed(entries, |entries|, name)
  {
    if Listed(entries, |entries|, name) {
      var i :| 0 <= i < |entries| && entries[i].name == Some(name);
      assert Stores(inventory, entries[i], family);
    }
  }

  /**
   The planner on an impact report as read: it fails exactly when an inventory is invalid or a tied profile is absent.
   */
  method PlanRun(production: Option<seq<Entry>>, ci: Option<seq<Entry>>, inputs: Inputs, cacheWrite: bool, force: bool,
                 baseline: Option<Snapshot>)
    returns (r: Option<Snapshot>, ghost impact: Impact)
    ensures r.Some? <==> ReportOk(production, ci)
    ensures r.Some? ==> Reads(production, impact.production, Production) && Reads(ci, impact.ci, CI)
    ensures r.Some? ==> Plannable(impact) && r.value == Plan(impact, baseline)
    ensures impact.inputs == inputs && impact.cacheWrite == cacheWrite && impact.force == force
  {
    impact := Impact(map[], map[], inputs, cacheWrite, force);
    var p := ValidateInventory(production, Production);
    if p.None? { return None, impact; }
    var c := ValidateInventory(ci, CI);
    if c.None? { return None, impact; }
    HeldIffListed(p.value, production.value, Production, "type-i");
    HeldIffListed(c.value, ci.value, CI, "ci-python");
    if "ci-python" !in c.value || "type-i" !in p.value { return None, impact; }
    var report := Impact(p.value, c.value, inputs, cacheWrite, force);
    impact := report;
    var s := PlanImpact(report, baseline);
    r := Some(s);
  }

  // Verification of a run's jobs.

  datatype Outcome = Success | Skipped | Failed

  /** The jobs the workflow knows; language-smoke and toolchain-profile are the regular jobs of the two families. */
  datatype Job =
    | Policy | Unit | SupplyChain | RuntimeMatrix | ToolchainSummary
    | RuntimeBinaries | Sandbox | ImageSbom | MixinSmoke
    | Regular(family: Family) | Cached(family: Family, write: bool)
    | Other(name: string)

  type Needs = map<Job, Outcome>

  predicate IsRequired(s: Snapshot, job: Job) {
    match job
    case Policy | Unit | SupplyChain | RuntimeMatrix | ToolchainSummary => true
    case RuntimeBinaries => s.outputs.hasAnyRuntime
    case Sandbox => s.outputs.sandboxRequired
    case ImageSbom => s.outputs.ciPythonChanged
    case MixinSmoke => s.outputs.typeIChanged
    case Regular(family) => MatricesIn(s, family).regular != map[]
    case Cached(family, write) => MatricesIn(s, family).cached != map[] && write == s.cacheWrite
    case Other(_) => false
  }

  predicate Succeeded(needs: Needs, job: Job) {
    job in needs && needs[job] == Success
  }

  ghost predicate JobsAccepted(s: Snapshot, needs: Needs) {
    && (forall job :: IsRequired(s, job) ==> Succeeded(needs, job))
    && (forall job :: job in needs ==> needs[job] != Failed)
  }

  predicate AnyFailed(needs: Needs) {
    exists job :: job in needs && needs[job] == Failed
  }

  /** Which jobs a run's outputs make indispensable, job by job. */
  ghost predicate SucceededAsSelected(o: Outputs, cacheWrite: bool, needs: Needs) {
    && Succeeded(needs, Policy) && Succeeded(needs, Unit) && Succeeded(needs, SupplyChain)
    && Succeeded(needs, RuntimeMatrix) && Succeeded(needs, ToolchainSummary)
    && (o.hasAnyRuntime ==> Succeeded(needs, RuntimeBinaries))
    && (o.sandboxRequired ==> Succeeded(needs, Sandbox))
    && (o.ciPythonChanged ==> Succeeded(needs, ImageSbom))
    && (o.typeIChanged ==> Succeeded(needs, MixinSmoke))
    && (o.ci.regular != map[] ==> Succeeded(needs, Regular(CI)))
    && (o.production.regular != map[] ==> Succeeded(needs, Regular(Production)))
    && (o.ci.cached != map[] ==> Succeeded(needs, Cached(CI, cacheWrite)))
    && (o.production.cached != map[] ==> Succeeded(needs, Cached(Production, cacheWrite)))
  }

  lemma {:induction false} AcceptedSucceeded(s: Snapshot, needs: Needs)
    requires JobsAccepted(s, needs)
    ensures SucceededAsSelected(s.outputs, s.cacheWrite, needs)
  {
    assert IsRequired(s, Policy) && IsRequired(s, Unit) && IsRequired(s, SupplyChain);
    assert IsRequired(s, RuntimeMatrix) && IsRequired(s, ToolchainSummary);
    assert s.outputs.hasAnyRuntime ==> IsRequired(s, RuntimeBinaries);
    assert s.outputs.sandboxRequired ==> IsRequired(s, Sandbox);
    assert s.outputs.ciPythonChanged ==> IsRequired(s, ImageSbom);
    assert s.outputs.typeIChanged ==> IsRequired(s, MixinSmoke);
    assert s.outputs.ci.regular != map[] ==> IsRequired(s, Regular(CI));
    assert s.outputs.production.regular != map[] ==> IsRequired(s, Regular(Production));
    assert s.outputs.ci.cached != map[] ==> IsRequired(s, Cached(CI, s.cacheWrite));
    assert s.outputs.production.cached != map[] ==> IsRequired(s, Cached(Production, s.cacheWrite));
  }

  lemma {:induction false} RequiredSucceeded(s: Snapshot, needs: Needs, job: Job)
    requires SucceededAsSelected(s.outputs, s.cacheWrite, needs) && IsRequired(s, job)
    ensures Succeeded(needs, job)
  {
    RequiredIsKnown(s, job);
  }

  /** The requirements one job at a time are those of the whole list, and no more. */
  lemma {:induction false} AcceptedExactly(s: Snapshot, needs: Needs)
    ensures JobsAccepted(s, needs) <==> SucceededAsSelected(s.outputs, s.cacheWrite, needs) && !AnyFailed(needs)
  {
    if JobsAccepted(s, needs) { AcceptedSucceeded(s, needs); }
    if SucceededAsSelected(s.outputs, s.cacheWrite, needs) {
      forall job | IsRequired(s, job) ensures Succeeded(needs, job) {
        RequiredSucceeded(s, needs, job);
      }
    }
  }

  const KNOWN_JOBS :=
    [Policy, Unit, SupplyChain, RuntimeMatrix, ToolchainSummary, RuntimeBinaries, Sandbox, ImageSbom, MixinSmoke,
     Regular(CI), Regular(Production), Cached(CI, false), Cached(CI, true), Cached(Production, false),
       Cached(Production, true)]

  lemma {:induction false} RequiredIsKnown(s: Snapshot, job: Job)
    requires IsRequired(s, job)
    ensures job in KNOWN_JOBS
  {
  }

  method VerifyJobs(s: Snapshot, needs: Needs) returns (ok: bool)
    ensures ok <==> JobsAccepted(s, needs)
    ensures ok <==> SucceededAsSelected(s.outputs, s.cacheWrite, needs) && !AnyFailed(needs)
  {
    AcceptedExactly(s, needs);
    forall job | IsRequired(s, job) ensures job in KNOWN_JOBS {
      RequiredIsKnown(s, job);
    }
    for k := 0 to |KNOWN_JOBS|
      invariant forall i :: 0 <= i < k && IsRequired(s, KNOWN_JOBS[i]) ==> Succeeded(needs, KNOWN_JOBS[i])
    {
      if IsRequired(s, KNOWN_JOBS[k]) && !Succeeded(needs, KNOWN_JOBS[k]) { return false; }
    }
    var names := needs.Keys;
    while names != {}
      invariant names <= needs.Keys
      invariant forall job :: job in needs && job !in names ==> needs[job] != Failed
      decreases names
    {
      var job :| job in names;
      if needs[job] == Failed { return false; }
      names := names - {job};
    }
    return true;
  }

  // Coverage.

  function JobFor(s: Snapshot, family: Family, name: string): Job {
    if Special(family, name) then Cached(family, s.cacheWrite) else Regular(family)
  }

  /** The matrices are those of the snapshot's rows, which is all that coverage depends on. */
  predicate Consistent(s: Snapshot) {
    s.outputs.production == MatricesOf(Production, s.production) && s.outputs.ci == MatricesOf(CI, s.ci)
  }

  lemma {:induction false} PlanIsConsistent(impact: Impact, baseline: Option<Snapshot>)
    requires Plannable(impact)
    ensures Consistent(Plan(impact, baseline))
  {
  }

  /** Every selected row is in exactly one of the two matrices, and the job that runs that matrix is required. */
  lemma {:induction false} SelectedIsCovered(s: Snapshot, family: Family, name: string)
    requires Consistent(s)
    ensures var m := MatricesIn(s, family);
            && (name in RowsIn(s, family) && Selected(RowsIn(s, family)[name]) <==> name in m.all)
            && (name in m.all <==> name in m.regular || name in m.cached)
            && !(name in m.regular && name in m.cached)
            && (name in m.all ==> m.all[name] == RowsIn(s, family)[name].item && IsRequired(s, JobFor(s, family, name)))
  {
    assert MatricesIn(s, family) == MatricesOf(family, RowsIn(s, family));
  }

  ghost predicate SelectedIn(impact: Impact, baseline: Option<Snapshot>, family: Family, name: string) {
    var inventory := if family.CI? then impact.ci else impact.production;
    && name in inventory
    && (|| impact.force || baseline.None? || baseline.value.schema != 2
        || name !in RowsIn(baseline.value, family)
        || RowsIn(baseline.value, family)[name].item.fingerprint != inventory[name].fingerprint
        || RowsIn(baseline.value, family)[name].verification.inputs !=
             [inventory[name].fingerprint, impact.inputs.workflow]
             + if UsesGo(inventory[name]) then [impact.inputs.goModule] else [])
  }

  /**
   A profile is selected exactly when the run is forced, no usable baseline knows it, or its fingerprint or one of the
   inputs it is verified against changed.
   */
  lemma {:induction false} SelectedExactly(impact: Impact, baseline: Option<Snapshot>, family: Family, name: string)
    requires Plannable(impact)
    ensures var rows := RowsIn(Plan(impact, baseline), family);
            && (name in rows && Selected(rows[name]) <==> SelectedIn(impact, baseline, family, name))
            && (name in rows <==> name in if family.CI? then impact.ci else impact.production)
            && (name in rows ==> rows[name].item == (if family.CI? then impact.ci else impact.production)[name])
  {
  }

  /** The profiles that are verified with a cache of their own. */
  function CachedProfiles(family: Family): set<string> {
    if family.CI? then {"ci-idris2", "ci-cuda-ocelot"} else {"type-a", "type-c", "type-o"}
  }

  /** The job that verifies a profile. */
  function VerifierOf(family: Family, name: string, cacheWrite: bool): Job {
    if name in CachedProfiles(family) then Cached(family, cacheWrite) else Regular(family)
  }

  ghost predicate SandboxChanged(impact: Impact, baseline: Option<Snapshot>)
    requires Plannable(impact)
  {
    || impact.force || baseline.None? || baseline.value.schema != 2
    || baseline.value.sandbox.inputs !=
         [impact.ci["ci-python"].fingerprint, impact.inputs.workflow, impact.inputs.sandbox]
  }

  ghost predicate AllVerified(impact: Impact, baseline: Option<Snapshot>, needs: Needs) {
    && FamilyVerified(impact, baseline, CI, needs) && FamilyVerified(impact, baseline, Production, needs)
    && forall family, name :: SelectedIn(impact, baseline, family, name) ==>
      && Succeeded(needs, RuntimeBinaries)
      && (family == CI && name == "ci-python" ==> Succeeded(needs, ImageSbom))
      && (family == Production && name == "type-i" ==> Succeeded(needs, MixinSmoke))
  }

  lemma {:induction false} SpecialExactly(family: Family, name: string)
    ensures Special(family, name) <==> name in CachedProfiles(family)
  {
  }

  lemma {:induction false} MatrixHolds(family: Family, rows: Rows, name: string)
    ensures var m := MatricesOf(family, rows);
            && (name in m.regular <==> name in rows && Selected(rows[name]) && !Special(family, name))
            && (name in m.cached <==> name in rows && Selected(rows[name]) && Special(family, name))
  {
  }

  lemma {:induction false} MatrixExactly(impact: Impact, baseline: Option<Snapshot>, family: Family, name: string)
    requires Plannable(impact)
    ensures var m := MatricesIn(Plan(impact, baseline), family);
            && (name in m.regular <==> SelectedIn(impact, baseline, family, name) && name !in CachedProfiles(family))
            && (name in m.cached <==> SelectedIn(impact, baseline, family, name) && name in CachedProfiles(family))
  {
    SelectedExactly(impact, baseline, family, name);
    SpecialExactly(family, name);
    MatrixHolds(family, RowsIn(Plan(impact, baseline), family), name);
    PlanIsConsistent(impact, baseline);
  }

  ghost predicate FamilyVerified(impact: Impact, baseline: Option<Snapshot>, family: Family, needs: Needs) {
    forall name :: SelectedIn(impact, baseline, family, name) ==>
      Succeeded(needs, VerifierOf(family, name, impact.cacheWrite))
  }

  ghost predicate MatricesVerified(m: Matrices, family: Family, cacheWrite: bool, needs: Needs) {
    && (m.regular != map[] ==> Succeeded(needs, Regular(family)))
    && (m.cached != map[] ==> Succeeded(needs, Cached(family, cacheWrite)))
  }

  ghost predicate MatricesExact(m: Matrices, impact: Impact, baseline: Option<Snapshot>, family: Family) {
    && (forall name :: name in m.regular <==>
          SelectedIn(impact, baseline, family, name) && name !in CachedProfiles(family))
    && (forall name :: name in m.cached <==>
          SelectedIn(impact, baseline, family, name) && name in CachedProfiles(family))
  }

  /** What a family's matrices need from the jobs. */
  lemma {:induction false} FamilyVerifiedExactly(m: Matrices, impact: Impact, baseline: Option<Snapshot>,
    family: Family, needs: Needs)
    requires MatricesExact(m, impact, baseline, family)
    ensures MatricesVerified(m, family, impact.cacheWrite, needs) <==> FamilyVerified(impact, baseline, family, needs)
  {
    if FamilyVerified(impact, baseline, family, needs) {
      if m.regular != map[] {
        var name :| name in m.regular.Keys;
        assert Succeeded(needs, VerifierOf(family, name, impact.cacheWrite));
      }
      if m.cached != map[] {
        var name :| name in m.cached.Keys;
        assert Succeeded(needs, VerifierOf(family, name, impact.cacheWrite));
      }
    }
    if MatricesVerified(m, family, impact.cacheWrite, needs) {
      forall name | SelectedIn(impact, baseline, family, name)
        ensures Succeeded(needs, VerifierOf(family, name, impact.cacheWrite))
      {
        assert name in m.regular || name in m.cached;
      }
    }
  }

  lemma {:induction false} PlanIsVerified(impact: Impact, baseline: Option<Snapshot>, family: Family, needs: Needs)
    requires Plannable(impact)
    ensures MatricesVerified(MatricesIn(Plan(impact, baseline), family), family, impact.cacheWrite, needs)
            <==> FamilyVerified(impact, baseline, family, needs)
  {
    var m := MatricesIn(Plan(impact, baseline), family);
    forall name
      ensures name in m.regular <==>
              SelectedIn(impact, baseline, family, name) && name !in CachedProfiles(family)
      ensures name in m.cached <==>
              SelectedIn(impact, baseline, family, name) && name in CachedProfiles(family)
    {
      MatrixExactly(impact, baseline, family, name);
    }
    FamilyVerifiedExactly(m, impact, baseline, family, needs);
  }

  lemma {:induction false} AnySelectedExactly(impact: Impact, baseline: Option<Snapshot>)
    requires Plannable(impact)
    ensures var o := Plan(impact, baseline).outputs;
            && (o.hasAnyRuntime <==> exists family, name :: SelectedIn(impact, baseline, family, name))
            && (o.ciPythonChanged <==> SelectedIn(impact, baseline, CI, "ci-python"))
            && (o.typeIChanged <==> SelectedIn(impact, baseline, Production, "type-i"))
            && (o.sandboxRequired <==> SandboxChanged(impact, baseline))
  {
    var s := Plan(impact, baseline);
    SelectedExactly(impact, baseline, CI, "ci-python");
    SelectedExactly(impact, baseline, Production, "type-i");
    if s.outputs.hasAnyRuntime {
      var family := if AnySelected(s.ci) then CI else Production;
      var name :| name in RowsIn(s, family) && Selected(RowsIn(s, family)[name]);
      SelectedExactly(impact, baseline, family, name);
    }
    if family, name :| SelectedIn(impact, baseline, family, name) {
      SelectedExactly(impact, baseline, family, name);
    }
  }

  /**
   Main result: a planned run is accepted exactly when the five unconditional jobs succeeded, so did the jobs of every
   profile selected and, where its inputs changed, the sandbox job, and no job failed.
   */
  lemma {:induction false} RunAcceptedExactly(impact: Impact, baseline: Option<Snapshot>, needs: Needs)
    requires Plannable(impact)
    ensures JobsAccepted(Plan(impact, baseline), needs) <==>
            && Succeeded(needs, Policy) && Succeeded(needs, Unit) && Succeeded(needs, SupplyChain)
            && Succeeded(needs, RuntimeMatrix) && Succeeded(needs, ToolchainSummary)
            && AllVerified(impact, baseline, needs)
            && (SandboxChanged(impact, baseline) ==> Succeeded(needs, Sandbox))
            && (forall job :: job in needs ==> needs[job] != Failed)
  {
    AcceptedExactly(Plan(impact, baseline), needs);
    AnySelectedExactly(impact, baseline);
    PlanIsVerified(impact, baseline, CI, needs);
    PlanIsVerified(impact, baseline, Production, needs);
    assert Plan(impact, baseline).cacheWrite == impact.cacheWrite;
  }

  // Chains of accepted runs.

  /** A run: what it planned from, the earlier run it took as baseline, and its jobs' outcomes. */
  datatype Run = Run(impact: Impact, baseline: Option<nat>, needs: Needs)

  /** Run `i`'s snapshot in a chain where every baseline is an earlier run. */
  function SnapshotOf(chain: seq<Run>, i: nat): Snapshot
    requires i < |chain| && WellFounded(chain)
    decreases i
  {
    Plan(chain[i].impact, if chain[i].baseline.Some? then Some(SnapshotOf(chain, chain[i].baseline.value)) else None)
  }

  predicate WellFounded(chain: seq<Run>) {
    forall i :: 0 <= i < |chain| ==>
      Plannable(chain[i].impact) && (chain[i].baseline.Some? ==> chain[i].baseline.value < i)
  }

  ghost predicate AllAccepted(chain: seq<Run>) {
    WellFounded(chain) && forall i :: 0 <= i < |chain| ==> JobsAccepted(SnapshotOf(chain, i), chain[i].needs)
  }

  predicate Ancestor(chain: seq<Run>, i: nat, j: nat)
    requires i < |chain| && WellFounded(chain)
    decreases i
  {
    j == i || (chain[i].baseline.Some? && Ancestor(chain, chain[i].baseline.value, j))
  }

  /** Run `j` selected this profile with this verification digest, and the job that verified it succeeded. */
  ghost predicate PassedIn(chain: seq<Run>, j: nat, family: Family, name: string, verification: Digest)
    requires j < |chain| && WellFounded(chain)
  {
    var s := SnapshotOf(chain, j);
    && name in RowsIn(s, family) && RowsIn(s, family)[name].verification == verification
       && Selected(RowsIn(s, family)[name])
    && Succeeded(chain[j].needs, JobFor(s, family, name))
  }

  /** A row that was not selected has the digest of a usable baseline's row. */
  lemma {:induction false} UnselectedIsInherited(impact: Impact, baseline: Option<Snapshot>, family: Family,
    name: string)
    requires Plannable(impact) && name in RowsIn(Plan(impact, baseline), family)
    requires !Selected(RowsIn(Plan(impact, baseline), family)[name])
    ensures baseline.Some? && name in RowsIn(baseline.value, family)
    ensures RowsIn(baseline.value, family)[name].verification ==
      RowsIn(Plan(impact, baseline), family)[name].verification
  {
    var inventory := if family.CI? then impact.ci else impact.production;
    assert inventory[name].name == name;
  }

  lemma {:induction false} SandboxIsInherited(impact: Impact, baseline: Option<Snapshot>)
    requires Plannable(impact) && !Plan(impact, baseline).outputs.sandboxRequired
    ensures baseline.Some? && baseline.value.sandbox == Plan(impact, baseline).sandbox
  {
  }

  function BaselineOf(chain: seq<Run>, i: nat): Option<Snapshot>
    requires i < |chain| && WellFounded(chain)
  {
    if chain[i].baseline.Some? then Some(SnapshotOf(chain, chain[i].baseline.value)) else None
  }

  /** Every profile's current digest was selected and passed in this run or an ancestor. */
  lemma {:induction false} EveryProfileWasVerified(chain: seq<Run>, i: nat, family: Family, name: string)
    returns (j: nat)
    requires AllAccepted(chain) && i < |chain| && name in RowsIn(SnapshotOf(chain, i), family)
    ensures j <= i && Ancestor(chain, i, j)
    ensures PassedIn(chain, j, family, name, RowsIn(SnapshotOf(chain, i), family)[name].verification)
    decreases i
  {
    var s := SnapshotOf(chain, i);
    assert s == Plan(chain[i].impact, BaselineOf(chain, i));
    if Selected(RowsIn(s, family)[name]) {
      j := i;
      PlanIsConsistent(chain[i].impact, BaselineOf(chain, i));
      SelectedIsCovered(s, family, name);
      assert IsRequired(s, JobFor(s, family, name)) && JobsAccepted(s, chain[i].needs);
    } else {
      UnselectedIsInherited(chain[i].impact, BaselineOf(chain, i), family, name);
      j := EveryProfileWasVerified(chain, chain[i].baseline.value, family, name);
    }
  }

  /** A verification digest pins the fingerprint and the workflow inputs it was computed from. */
  lemma {:induction false} DigestPinsInputs(item: Item, inputs: Inputs, item': Item, inputs': Inputs)
    requires VerificationOf(item, inputs) == VerificationOf(item', inputs')
    ensures item.fingerprint == item'.fingerprint && inputs.workflow == inputs'.workflow
    ensures UsesGo(item) == UsesGo(item') && (UsesGo(item) ==> inputs.goModule == inputs'.goModule)
  {
    var d, d' := VerificationOf(item, inputs).inputs, VerificationOf(item', inputs').inputs;
    assert d[0] == item.fingerprint && d'[0] == item'.fingerprint && d[1] == inputs.workflow
      && d'[1] == inputs'.workflow;
    if UsesGo(item) { assert d[2] == inputs.goModule; }
    if UsesGo(item') { assert d'[2] == inputs'.goModule; }
  }

  lemma {:induction false} RowHasItsDigest(impact: Impact, baseline: Option<Snapshot>, family: Family, name: string)
    requires Plannable(impact) && name in RowsIn(Plan(impact, baseline), family)
    ensures var row := RowsIn(Plan(impact, baseline), family)[name];
      row.verification == VerificationOf(row.item, impact.inputs)
  {
  }

  /** The run that passed tested the fingerprint, the workflow and, where Go is used, the Go module that are current. */
  lemma {:induction false} VerifiedInputsAreCurrent(chain: seq<Run>, i: nat, family: Family, name: string)
    returns (j: nat)
    requires AllAccepted(chain) && i < |chain| && name in RowsIn(SnapshotOf(chain, i), family)
    ensures j <= i && Ancestor(chain, i, j)
    ensures PassedIn(chain, j, family, name, RowsIn(SnapshotOf(chain, i), family)[name].verification)
    ensures RowsIn(SnapshotOf(chain, j), family)[name].item.fingerprint ==
      RowsIn(SnapshotOf(chain, i), family)[name].item.fingerprint
    ensures chain[j].impact.inputs.workflow == chain[i].impact.inputs.workflow
    ensures UsesGo(RowsIn(SnapshotOf(chain, i), family)[name].item) ==>
              chain[j].impact.inputs.goModule == chain[i].impact.inputs.goModule
  {
    j := EveryProfileWasVerified(chain, i, family, name);
    RowHasItsDigest(chain[i].impact, BaselineOf(chain, i), family, name);
    RowHasItsDigest(chain[j].impact, BaselineOf(chain, j), family, name);
    DigestPinsInputs(RowsIn(SnapshotOf(chain, i), family)[name].item, chain[i].impact.inputs,
                     RowsIn(SnapshotOf(chain, j), family)[name].item, chain[j].impact.inputs);
  }

  /** The sandbox digest pins the profile it runs on and the inputs it was computed from. */
  lemma {:induction false} SandboxPinsInputs(impact: Impact, baseline: Option<Snapshot>, impact': Impact,
    baseline': Option<Snapshot>)
    requires Plannable(impact) && Plannable(impact')
    requires Plan(impact, baseline).sandbox == Plan(impact', baseline').sandbox
    ensures impact.ci["ci-python"].fingerprint == impact'.ci["ci-python"].fingerprint
    ensures impact.inputs.workflow == impact'.inputs.workflow && impact.inputs.sandbox == impact'.inputs.sandbox
  {
    var d, d' := Plan(impact, baseline).sandbox.inputs, Plan(impact', baseline').sandbox.inputs;
    assert d[0] == d'[0] && d[1] == d'[1] && d[2] == d'[2];
  }

  /** The run that passed the sandbox checks did so on the profile, workflow and tests that are current. */
  lemma {:induction false} VerifiedSandboxIsCurrent(chain: seq<Run>, i: nat) returns (j: nat)
    requires AllAccepted(chain) && i < |chain|
    ensures j <= i && Ancestor(chain, i, j)
    ensures SnapshotOf(chain, j).outputs.sandboxRequired && Succeeded(chain[j].needs, Sandbox)
    ensures chain[j].impact.ci["ci-python"].fingerprint == chain[i].impact.ci["ci-python"].fingerprint
    ensures chain[j].impact.inputs.workflow == chain[i].impact.inputs.workflow
    ensures chain[j].impact.inputs.sandbox == chain[i].impact.inputs.sandbox
  {
    j := SandboxWasVerified(chain, i);
    SandboxPinsInputs(chain[i].impact, BaselineOf(chain, i), chain[j].impact, BaselineOf(chain, j));
  }

  /** The current sandbox digest was required and passed in this run or an ancestor. */
  lemma {:induction false} SandboxWasVerified(chain: seq<Run>, i: nat) returns (j: nat)
    requires AllAccepted(chain) && i < |chain|
    ensures j <= i && Ancestor(chain, i, j)
    ensures SnapshotOf(chain, j).sandbox == SnapshotOf(chain, i).sandbox && SnapshotOf(chain, j).outputs.sandboxRequired
    ensures Succeeded(chain[j].needs, Sandbox)
    decreases i
  {
    var s := SnapshotOf(chain, i);
    if s.outputs.sandboxRequired {
      j := i;
      assert IsRequired(s, Sandbox) && JobsAccepted(s, chain[i].needs);
    } else {
      SandboxIsInherited(chain[i].impact, BaselineOf(chain, i));
      j := SandboxWasVerified(chain, chain[i].baseline.value);
    }
  }
}
