/** The imperative half of src/contract-compatibility.ts: findings are pushed onto one bounded list while
    the two catalogs are walked. */
module ContractComparison {
  import opened Wrappers
  import opened Json
  import opened JsonSchema
  import opened ContractCompatibility
  import opened Sets

  datatype Severity = Breaking | Review | Info

  datatype Finding = Finding(action: string, path: string, severity: Severity)

  const MAX_FINDINGS: nat := 5000

  /** `after` adds findings about one action to `before`, none of them merely informative. */
  predicate Reports(before: seq<Finding>, after: seq<Finding>, action: string) {
    && before <= after
    && forall i | |before| <= i < |after| :: after[i].action == action && after[i].severity != Info
  }

  class Comparison {
    var findings: seq<Finding>

    /** No finding can be added any more. */
    predicate Full()
      reads this
    {
      |findings| >= MAX_FINDINGS
    }

    constructor ()
      ensures findings == []
    {
      findings := [];
    }

    method Add(action: string, path: string, severity: Severity) returns (r: Outcome<string>)
      modifies this
      ensures r.Fail? <==> old(Full())
      ensures findings == old(findings) + if r.Fail? then [] else [Finding(action, path, severity)]
    {
      if |findings| >= MAX_FINDINGS {
        return Fail("Contract comparison exceeds 5000 findings.");
      }
      findings := findings + [Finding(action, path, severity)];
      return Pass;
    }

    /** Adds one finding unless `holds`. */
    method Check(holds: bool, action: string, path: string, severity: Severity) returns (r: Outcome<string>)
      requires severity != Info
      modifies this
      ensures Reports(old(findings), findings, action)
      ensures r.Pass? ==> (findings == old(findings) <==> holds)
      ensures r.Fail? ==> !holds && Full()
    {
      if !holds {
        :- Add(action, path, severity);
      }
      return Pass;
    }

    method CompareOpaqueKeywords(a: Keywords, b: Keywords, action: string, path: string)
      returns (r: Outcome<string>)
      modifies this
      ensures Reports(old(findings), findings, action)
      ensures r.Pass? ==>
        (findings == old(findings) <==> forall k | k in a.Keys + b.Keys && Reviewed(k) :: SameKeyword(a, b, k))
      ensures r.Fail? ==> Full() && exists k | k in a.Keys + b.Keys && Reviewed(k) :: !SameKeyword(a, b, k)
    {
      var rest := a.Keys + b.Keys;
      while rest != {}
        invariant rest <= a.Keys + b.Keys
        invariant Reports(old(findings), findings, action)
        invariant findings == old(findings) <==>
          forall k | k in a.Keys + b.Keys - rest && Reviewed(k) :: SameKeyword(a, b, k)
      {
        var key :| key in rest;
        :- Check(Reviewed(key) ==> SameKeyword(a, b, key), action, path + "." + key, Review);
        rest := rest - {key};
      }
      return Pass;
    }

    method CompareBounds(a: Keywords, b: Keywords, action: string, path: string) returns (r: Outcome<string>)
      modifies this
      ensures Reports(old(findings), findings, action)
      ensures r.Pass? ==> (findings == old(findings) <==>
        && (forall i | 0 <= i < |LOWER_BOUNDS| :: LowerCovered(a, b, LOWER_BOUNDS[i]))
        && (forall i | 0 <= i < |UPPER_BOUNDS| :: UpperCovered(a, b, UPPER_BOUNDS[i])))
      ensures r.Fail? ==> Full()
      ensures r.Fail? ==>
        ((exists i | 0 <= i < |LOWER_BOUNDS| :: !LowerCovered(a, b, LOWER_BOUNDS[i])) ||
         (exists i | 0 <= i < |UPPER_BOUNDS| :: !UpperCovered(a, b, UPPER_BOUNDS[i])))
    {
      for j := 0 to |LOWER_BOUNDS|
        invariant Reports(old(findings), findings, action)
        invariant findings == old(findings) <==> forall i | 0 <= i < j :: LowerCovered(a, b, LOWER_BOUNDS[i])
      {
        var key := LOWER_BOUNDS[j];
        :- Check(LowerCovered(a, b, key), action, path + "." + key, Breaking);
      }
      ghost var middle := findings;
      for j := 0 to |UPPER_BOUNDS|
        invariant Reports(old(findings), middle, action) && Reports(middle, findings, action)
        invariant findings == middle <==> forall i | 0 <= i < j :: UpperCovered(a, b, UPPER_BOUNDS[i])
      {
        var key := UPPER_BOUNDS[j];
        :- Check(UpperCovered(a, b, key), action, path + "." + key, Breaking);
      }
      return Pass;
    }

    method CompareKeywords(a: Keywords, b: Keywords, action: string, path: string) returns (r: Outcome<string>)
      modifies this
      ensures Reports(old(findings), findings, action)
      ensures r.Pass? ==> (findings == old(findings) <==> KeywordsCovered(a, b))
      ensures r.Fail? ==> Full() && !KeywordsCovered(a, b)
    {
      var to := Types(b);
      :- CompareOpaqueKeywords(a, b, action, path);
      :- Check(forall t | t in Types(a) :: TypeCovered(t, to), action, path + ".type", Breaking);
      :- Check(ValuesCovered(a, b), action, path + ".enum", Breaking);
      :- CompareBounds(a, b, action, path);
      :- Check(UniqueCovered(a, b), action, path + ".uniqueItems", Breaking);
      return Pass;
    }

    method CompareRequired(a: Keywords, b: Keywords, action: string, path: string) returns (r: Outcome<string>)
      requires ObjectsReadable(a, b)
      modifies this
      ensures Reports(old(findings), findings, action)
      ensures r.Pass? ==> (findings == old(findings) <==> RequiredCovered(a, b))
      ensures r.Fail? ==> Full() && !RequiredCovered(a, b)
    {
      var from, to := Or(a, "required", Array([])).items, Or(b, "required", Array([])).items;
      for j := 0 to |to|
        invariant Reports(old(findings), findings, action)
        invariant findings == old(findings) <==> forall i | 0 <= i < j :: to[i] in from
      {
        var name := if to[j].String? then to[j].s else "";
        :- Check(to[j] in from, action, path + "." + name, Breaking);
      }
      return Pass;
    }

    method CompareProperties(a: Keywords, b: Keywords, action: string, path: string, depth: nat)
      returns (r: Outcome<string>)
      requires depth <= 32 && ObjectsReadable(a, b)
      modifies this
      ensures Reports(old(findings), findings, action)
      ensures r.Pass? ==> (findings == old(findings) <==>
        forall name | name in Or(a, "properties", EMPTY).fields.Keys + Or(b, "properties", EMPTY).fields.Keys ::
          PropertySubsumes(PropertySchema(a, name), PropertySchema(b, name), depth))
      ensures r.Fail? ==> Full()
      ensures r.Fail? ==>
        exists name | name in Or(a, "properties", EMPTY).fields.Keys + Or(b, "properties", EMPTY).fields.Keys ::
          !PropertySubsumes(PropertySchema(a, name), PropertySchema(b, name), depth)
      decreases 33 - depth, 1
    {
      var names := Or(a, "properties", EMPTY).fields.Keys + Or(b, "properties", EMPTY).fields.Keys;
      var rest := names;
      while rest != {}
        invariant rest <= names
        invariant Reports(old(findings), findings, action)
        invariant findings == old(findings) <==> forall name | name in names - rest ::
          PropertySubsumes(PropertySchema(a, name), PropertySchema(b, name), depth)
      {
        var name :| name in rest;
        :- CompareProperty(PropertySchema(a, name), PropertySchema(b, name), action, path + "." + name, depth);
        rest := rest - {name};
      }
      return Pass;
    }

    method CompareProperty(p: Json<real>, q: Json<real>, action: string, path: string, depth: nat)
      returns (r: Outcome<string>)
      requires depth <= 32
      modifies this
      ensures Reports(old(findings), findings, action)
      ensures r.Pass? ==> (findings == old(findings) <==> PropertySubsumes(p, q, depth))
      ensures r.Fail? ==> Full() && !PropertySubsumes(p, q, depth)
      decreases 33 - depth, 0
    {
      if p == Bool(false) {
        return Pass;
      }
      if q == Bool(false) {
        :- Add(action, path, Breaking);
      } else {
        :- Subset(TrueAsEmpty(p), TrueAsEmpty(q), action, path, depth + 1);
      }
      return Pass;
    }

    method CompareObjects(a: Keywords, b: Keywords, action: string, path: string, depth: nat)
      returns (r: Outcome<string>, stop: bool)
      requires depth <= 32
      modifies this
      ensures Reports(old(findings), findings, action)
      ensures r.Pass? ==> (findings == old(findings) <==> ObjectSubsumes(a, b, depth))
      ensures r.Fail? ==> Full() && !ObjectSubsumes(a, b, depth)
      ensures stop ==> findings != old(findings)
      decreases 33 - depth, 2
    {
      r, stop := Pass, false;
      if !ObjectsReadable(a, b) {
        r := Add(action, path, Review);
        return r, r.Pass?;
      }
      r := CompareRequired(a, b, action, path);
      if r.Fail? { return; }
      r := Check(ClosedCovered(a, b), action, path + ".additionalProperties", Breaking);
      if r.Fail? { return; }
      r := CompareProperties(a, b, action, path, depth);
      if r.Fail? { return; }
      if ConstrainsAdditional(b) {
        r := Subset(AdditionalSchema(a), b["additionalProperties"], action, path + ".*", depth + 1);
      }
    }

    /** Raises a finding exactly when `Subsumes` fails; gives up only when it has one more to raise and the list is
        full. */
    method Subset(source: Json<real>, target: Json<real>, action: string, path: string, depth: nat)
      returns (r: Outcome<string>)
      modifies this
      ensures Reports(old(findings), findings, action)
      ensures r.Pass? ==> (findings == old(findings) <==> Subsumes(source, target, depth))
      ensures r.Fail? ==> Full() && !Subsumes(source, target, depth)
      decreases 33 - depth, 3
    {
      if depth > 32 || !source.Object? || !target.Object? {
        :- Add(action, path, Review);
        return Pass;
      }
      if source == target {
        return Pass;
      }
      var a, b := source.fields, target.fields;
      :- CompareKeywords(a, b, action, path);
      if BothAllow("object", a, b) {
        var outcome, stop := CompareObjects(a, b, action, path, depth);
        if outcome.Fail? || stop {
          return outcome;
        }
      }
      if BothAllow("array", a, b) {
        :- Subset(Or(a, "items", EMPTY), Or(b, "items", EMPTY), action, path + "[]", depth + 1);
      }
      return Pass;
    }
  }

  // ----- Catalogs of actions -----

  datatype ContractAction = ContractAction(
    name: string, kind: Option<Json<real>>, access: Option<Json<real>>, agent: bool,
    input: Schema, output: Schema, scope: Option<string>, actionPath: Option<Json<real>>)

  datatype Catalog = Catalog(backend: bool, actions: map<string, ContractAction>)

  /** A property of a parsed JSON value; `undefined` is None. */
  function Get(j: Json<real>, key: string): Option<Json<real>> {
    if j.Object? && key in j.fields then Some(j.fields[key]) else None
  }

  predicate Truthy(j: Option<Json<real>>) {
    match j
    case None => false
    case Some(Null) => false
    case Some(Bool(b)) => b
    case Some(Number(n)) => n != 0.0
    case Some(String(s)) => s != ""
    case Some(_) => true
  }

  predicate NameChar(c: char) {
    'A' <= c <= 'Z' || 'a' <= c <= 'z' || '0' <= c <= '9' || c == '_' || c == '.' || c == '-'
  }

  function NameOf(item: Json<real>): string {
    var name := Get(item, "name");
    if name.Some? && name.value.String? then name.value.s else ""
  }

  predicate NameOk(name: Option<Json<real>>) {
    && name.Some? && name.value.String?
    && 1 <= |name.value.s| <= 256
    && forall c | c in name.value.s :: NameChar(c)
  }

  predicate IsObject(j: Option<Json<real>>) {
    j.Some? && j.value.Object?
  }

  predicate KindAndAccessOk(item: Json<real>) {
    && Get(item, "kind") in {Some(String("query")), Some(String("mutation"))}
    && Get(item, "access") in {Some(String("public")), Some(String("required"))}
  }

  predicate ScopeOk(scope: Option<Json<real>>) {
    scope.Some? ==> scope.value.String? && |scope.value.s| <= 256
  }

  function InputKey(backend: bool): string {
    if backend then "args" else "inputSchema"
  }

  function OutputKey(backend: bool): string {
    if backend then "returns" else "outputSchema"
  }

  predicate ItemOk(item: Json<real>, backend: bool) {
    && NameOk(Get(item, "name"))
    && (backend ==> KindAndAccessOk(item))
    && ScopeOk(Get(item, "requiredScope"))
    && IsObject(Get(item, InputKey(backend)))
    && (Get(item, OutputKey(backend)).Some? ==> IsObject(Get(item, OutputKey(backend))))
  }

  function ReadItem(item: Json<real>, backend: bool): (action: ContractAction)
    requires ItemOk(item, backend)
    ensures action.name == NameOf(item)
    ensures action.input.Object? && action.output.Object?
  {
    var hints := Get(item, "annotations");
    var readOnly := hints.Some? && Get(hints.value, "readOnlyHint") == Some(Bool(true));
    var output := Get(item, OutputKey(backend));
    var scope := Get(item, "requiredScope");
    ContractAction(
      NameOf(item),
      if backend then Get(item, "kind") else Some(String(if readOnly then "query" else "mutation")),
      Get(item, "access"),
      Get(item, "agent") == Some(Bool(true)),
      Get(item, InputKey(backend)).value,
      if output.Some? then output.value else EMPTY,
      if !backend && scope.Some? then Some(scope.value.s) else None,
      Get(item, "actionPath"))
  }

  predicate ItemsOk(items: seq<Json<real>>, n: nat, backend: bool)
    requires n <= |items|
  {
    && (forall i | 0 <= i < n :: ItemOk(items[i], backend))
    && (forall i, j | 0 <= i < j < n :: NameOf(items[i]) != NameOf(items[j]))
  }

  /** The actions of the first `n` items, by name. */
  function ReadItems(items: seq<Json<real>>, n: nat, backend: bool): map<string, ContractAction>
    requires n <= |items| && forall i | 0 <= i < n :: ItemOk(items[i], backend)
  {
    if n == 0 then map[]
    else
      var last := ReadItem(items[n - 1], backend);
      ReadItems(items, n - 1, backend)[last.name := last]
  }

  lemma {:induction false} ReadItemsNames(items: seq<Json<real>>, n: nat, backend: bool)
    requires n <= |items| && forall i | 0 <= i < n :: ItemOk(items[i], backend)
    ensures forall name :: name in ReadItems(items, n, backend) <==> Named(items, n, name)
  {
    if n > 0 {
      ReadItemsNames(items, n - 1, backend);
      var last := ReadItem(items[n - 1], backend).name;
      forall name ensures Named(items, n, name) <==> name == last || Named(items, n - 1, name) {
      }
    }
  }

  predicate Named(items: seq<Json<real>>, n: nat, name: string)
    requires n <= |items|
  {
    exists i :: 0 <= i < n && NameOf(items[i]) == name
  }

  predicate IsBackend(manifest: Json<real>) {
    Get(manifest, "protocol") == Some(String("clank-live/1"))
  }

  function Listing(manifest: Json<real>): Option<Json<real>> {
    Get(manifest, if IsBackend(manifest) then "functions" else "tools")
  }

  /** The manifests `actions` does not reject; `size` is the length of the encoded manifest. */
  predicate Readable(manifest: Json<real>, size: nat) {
    && size <= 2_000_000
    && !Truthy(Get(manifest, "nextCursor"))
    && Listing(manifest).Some? && Listing(manifest).value.Array?
    && |Listing(manifest).value.items| <= 1000
    && ItemsOk(Listing(manifest).value.items, |Listing(manifest).value.items|, IsBackend(manifest))
  }

  function CatalogOf(manifest: Json<real>): Catalog
    requires exists size :: Readable(manifest, size)
  {
    var items := Listing(manifest).value.items;
    Catalog(IsBackend(manifest), ReadItems(items, |items|, IsBackend(manifest)))
  }

  method Actions(manifest: Json<real>, size: nat) returns (r: Result<Catalog, string>)
    ensures r.Ok? <==> Readable(manifest, size)
    ensures r.Ok? ==> r.value == CatalogOf(manifest)
  {
    if size > 2_000_000 {
      return Err("Contract must be bounded JSON.");
    }
    var backend := IsBackend(manifest);
    if Truthy(Get(manifest, "nextCursor")) {
      return Err("Combine all MCP catalog pages before comparison.");
    }
    var list := Listing(manifest);
    if list.None? || !list.value.Array? || |list.value.items| > 1000 {
      return Err("Expected a backend manifest or complete MCP tools catalog.");
    }
    var items := list.value.items;
    r := FillCatalog(items, backend);
  }

  method FillCatalog(items: seq<Json<real>>, backend: bool) returns (r: Result<Catalog, string>)
    ensures r.Ok? <==> ItemsOk(items, |items|, backend)
    ensures r.Ok? ==> r.value == Catalog(backend, ReadItems(items, |items|, backend))
  {
    var actions: map<string, ContractAction> := map[];
    for i := 0 to |items|
      invariant ItemsOk(items, i, backend)
      invariant actions == ReadItems(items, i, backend)
    {
      var step := AddItem(items, i, backend, actions);
      if step.Err? {
        return Err(step.error);
      }
      actions := step.value;
    }
    return Ok(Catalog(backend, actions));
  }

  method AddItem(items: seq<Json<real>>, i: nat, backend: bool, actions: map<string, ContractAction>)
    returns (r: Result<map<string, ContractAction>, string>)
    requires i < |items| && ItemsOk(items, i, backend) && actions == ReadItems(items, i, backend)
    ensures r.Ok? ==> ItemsOk(items, i + 1, backend) && r.value == ReadItems(items, i + 1, backend)
    ensures r.Err? ==> !ItemsOk(items, |items|, backend)
  {
    if !ItemOk(items[i], backend) {
      return Err("Action kinds, access, scopes and schemas must be valid.");
    }
    ReadItemsNames(items, i, backend);
    var action := ReadItem(items[i], backend);
    if action.name in actions {
      return Err("Action names must be unique bounded identifiers.");
    }
    NewName(items, i, backend);
    return Ok(actions[action.name := action]);
  }

  lemma NewName(items: seq<Json<real>>, i: nat, backend: bool)
    requires i < |items| && ItemsOk(items, i, backend) && ItemOk(items[i], backend)
    requires !Named(items, i, NameOf(items[i]))
    ensures ItemsOk(items, i + 1, backend)
  {
    forall j | 0 <= j < i ensures NameOf(items[j]) != NameOf(items[i]) {
      assert !Named(items, i, NameOf(items[i]));
    }
  }

  // ----- The report -----

  /** `===` on parsed JSON: two objects are never the same one. */
  predicate StrictlyEqual(a: Option<Json<real>>, b: Option<Json<real>>) {
    a == b && (a.Some? ==> !a.value.Object? && !a.value.Array?)
  }

  predicate AccessKept(old_: ContractAction, next: ContractAction) {
    old_.access == Some(String("required")) || next.access != Some(String("required"))
  }

  predicate ScopesKnown(old_: ContractAction, next: ContractAction, backend: bool) {
    backend || (old_.scope.Some? && old_.scope.value != "" && next.scope.Some? && next.scope.value != "")
  }

  predicate ActionKept(old_: ContractAction, next: ContractAction, backend: bool) {
    && old_.kind == next.kind
    && AccessKept(old_, next)
    && (old_.agent ==> next.agent)
    && ScopesKnown(old_, next, backend)
    && StrictlyEqual(old_.actionPath, next.actionPath)
    && old_.scope == next.scope
    && Subsumes(old_.input, next.input, 0)
    && Subsumes(next.output, old_.output, 0)
  }

  predicate Compatible(before: Catalog, after: Catalog) {
    && before.backend == after.backend
    && forall name | name in before.actions ::
         name in after.actions && ActionKept(before.actions[name], after.actions[name], before.backend)
  }

  predicate AllInfo(findings: seq<Finding>) {
    forall i | 0 <= i < |findings| :: findings[i].severity == Info
  }

  datatype Report = Report(ok: bool, findings: seq<Finding>)

  method CompareAction(c: Comparison, old_: ContractAction, next: ContractAction, backend: bool)
    returns (r: Outcome<string>)
    modifies c
    ensures Reports(old(c.findings), c.findings, old_.name)
    ensures r.Pass? ==> (c.findings == old(c.findings) <==> ActionKept(old_, next, backend))
    ensures r.Fail? ==> c.Full() && !ActionKept(old_, next, backend)
  {
    var name := old_.name;
    :- c.Check(old_.kind == next.kind, name, "kind", Breaking);
    :- c.Check(AccessKept(old_, next), name, "access", Breaking);
    :- c.Check(old_.agent ==> next.agent, name, "agent", Breaking);
    :- c.Check(ScopesKnown(old_, next, backend), name, "scope", Review);
    :- c.Check(StrictlyEqual(old_.actionPath, next.actionPath), name, "actionPath", Breaking);
    :- c.Check(old_.scope == next.scope, name, "scope", Breaking);
    :- c.Subset(old_.input, next.input, name, "input", 0);
    :- c.Subset(next.output, old_.output, name, "output", 0);
    return Pass;
  }

  /** An old action that the new catalog does not keep. */
  predicate Lost(before: Catalog, after: Catalog, name: string) {
    && name in before.actions
    && !(name in after.actions && ActionKept(before.actions[name], after.actions[name], before.backend))
  }

  /** Actions carry the name they are listed under. */
  predicate NamesOk(c: Catalog) {
    forall name | name in c.actions :: c.actions[name].name == name
  }

  predicate Found(findings: seq<Finding>, name: string, added: bool) {
    exists f :: f in findings && f.action == name && (f.severity == Info <==> added)
  }

  /** Every finding is about a lost action, or tells of a new one. */
  predicate Sound(before: Catalog, after: Catalog, findings: seq<Finding>) {
    forall f | f in findings ::
      if f.severity == Info then f.action in after.actions.Keys - before.actions.Keys else Lost(before, after, f.action)
  }

  /** Every lost action and every new one is found. */
  ghost predicate Exhaustive(before: Catalog, after: Catalog, findings: seq<Finding>) {
    && (forall name | Lost(before, after, name) :: Found(findings, name, false))
    && (forall name | name in after.actions.Keys - before.actions.Keys :: Found(findings, name, true))
  }

  lemma SoundExtends(before: Catalog, after: Catalog, a: seq<Finding>, b: seq<Finding>, name: string)
    requires Sound(before, after, a) && Reports(a, b, name) && (a != b ==> Lost(before, after, name))
    ensures Sound(before, after, b)
  {
    forall f | f in b ensures
      if f.severity == Info then f.action in after.actions.Keys - before.actions.Keys else Lost(before, after, f.action)
    {
      var i :| 0 <= i < |b| && b[i] == f;
      assert i < |a| ==> a[i] == f && f in a;
    }
  }

  lemma FoundExtends(a: seq<Finding>, b: seq<Finding>, name: string, added: bool)
    requires a <= b && Found(a, name, added)
    ensures Found(b, name, added)
  {
    var f :| f in a && f.action == name && (f.severity == Info <==> added);
    var i :| 0 <= i < |a| && a[i] == f;
    assert b[i] == f;
  }

  lemma NewFound(a: seq<Finding>, b: seq<Finding>, name: string)
    requires Reports(a, b, name) && a != b
    ensures Found(b, name, false)
  {
    assert b[|a|] in b;
  }

  predicate LostFound(before: Catalog, after: Catalog, names: set<string>, findings: seq<Finding>) {
    forall name | name in names && Lost(before, after, name) :: Found(findings, name, false)
  }

  lemma LostFoundExtends(
    before: Catalog, after: Catalog, names: set<string>, a: seq<Finding>, b: seq<Finding>, name: string)
    requires LostFound(before, after, names, a) && Reports(a, b, name) && (Lost(before, after, name) ==> a != b)
    ensures LostFound(before, after, names + {name}, b)
  {
    forall n | n in names + {name} && Lost(before, after, n) ensures Found(b, n, false) {
      if n == name {
        NewFound(a, b, name);
      } else {
        FoundExtends(a, b, n, false);
      }
    }
  }

  /** One old action: findings exactly when it is lost. */
  method CompareOne(c: Comparison, before: Catalog, after: Catalog, name: string) returns (r: Outcome<string>)
    requires name in before.actions && NamesOk(before)
    modifies c
    ensures Reports(old(c.findings), c.findings, name)
    ensures r.Pass? ==> (c.findings == old(c.findings) <==> !Lost(before, after, name))
    ensures r.Fail? ==> c.Full() && Lost(before, after, name)
  {
    if name !in after.actions {
      r := c.Add(name, "action", Breaking);
    } else {
      r := CompareAction(c, before.actions[name], after.actions[name], before.backend);
    }
  }

  /** Compares every old action; fails only for a lost one that no longer fits into the list. */
  method CompareKnown(c: Comparison, before: Catalog, after: Catalog) returns (r: Outcome<string>)
    requires c.findings == [] && NamesOk(before)
    modifies c
    ensures Sound(before, after, c.findings)
    ensures forall f | f in c.findings :: f.severity != Info
    ensures r.Pass? ==> LostFound(before, after, before.actions.Keys, c.findings)
    ensures r.Fail? ==> c.Full() && exists name :: Lost(before, after, name)
  {
    var rest := before.actions.Keys;
    ghost var done: set<string> := {};
    while rest != {}
      invariant rest <= before.actions.Keys && done == before.actions.Keys - rest
      invariant Sound(before, after, c.findings) && LostFound(before, after, done, c.findings)
      invariant forall f | f in c.findings :: f.severity != Info
    {
      var name :| name in rest;
      ghost var earlier := c.findings;
      r := CompareOne(c, before, after, name);
      SoundExtends(before, after, earlier, c.findings, name);
      StillSerious(earlier, c.findings, name);
      if r.Fail? {
        return;
      }
      LostFoundExtends(before, after, done, earlier, c.findings, name);
      rest := rest - {name};
      done := done + {name};
    }
    return Pass;
  }

  lemma StillSerious(a: seq<Finding>, b: seq<Finding>, name: string)
    requires Reports(a, b, name) && forall f | f in a :: f.severity != Info
    ensures forall f | f in b :: f.severity != Info
  {
    forall f | f in b ensures f.severity != Info {
      var i :| 0 <= i < |b| && b[i] == f;
      assert i < |a| ==> a[i] in a;
    }
  }

  predicate AddedFound(names: set<string>, findings: seq<Finding>) {
    forall name | name in names :: Found(findings, name, true)
  }

  /** The list `now` is `start` followed by one note for each of `names`. */
  predicate Noted(start: seq<Finding>, now: seq<Finding>, names: set<string>) {
    && start <= now && |now| == |start| + |names|
    && (forall i | |start| <= i < |now| :: now[i].severity == Info && now[i].action in names)
    && AddedFound(names, now)
  }

  lemma NotesNext(start: seq<Finding>, now: seq<Finding>, names: set<string>, name: string)
    requires Noted(start, now, names) && name !in names
    ensures Noted(start, now + [Finding(name, "action", Info)], names + {name})
  {
    var f := Finding(name, "action", Info);
    var next := now + [f];
    forall n | n in names + {name} ensures Found(next, n, true) {
      if n == name {
        assert f in next;
      } else {
        FoundExtends(now, next, n, true);
      }
    }
  }

  method NoteAction(c: Comparison, name: string, ghost start: seq<Finding>, ghost done: set<string>)
    returns (r: Outcome<string>)
    requires Noted(start, c.findings, done) && name !in done
    modifies c
    ensures r.Pass? ==> Noted(start, c.findings, done + {name})
    ensures r.Fail? ==> c.Full() && c.findings == old(c.findings)
  {
    NotesNext(start, c.findings, done, name);
    r := c.Add(name, "action", Info);
  }

  /** Notes every new action; fails only for one that no longer fits into the list. */
  method CompareAdded(c: Comparison, names: set<string>) returns (r: Outcome<string>, ghost done: set<string>)
    modifies c
    ensures done <= names && Noted(old(c.findings), c.findings, done)
    ensures r.Pass? ==> done == names
    ensures r.Fail? ==> c.Full()
  {
    var added := names;
    done := {};
    while added != {}
      invariant added <= names && done == names - added
      invariant Noted(old(c.findings), c.findings, done)
    {
      var name :| name in added;
      r := NoteAction(c, name, old(c.findings), done);
      if r.Fail? {
        return;
      }
      added := added - {name};
      done := done + {name};
    }
    return Pass, done;
  }

  lemma NotedFacts(
    before: Catalog, after: Catalog, start: seq<Finding>, now: seq<Finding>, names: set<string>)
    requires Sound(before, after, start) && Noted(start, now, names)
    requires names <= after.actions.Keys - before.actions.Keys
    ensures Sound(before, after, now) && (AllInfo(now) <==> AllInfo(start))
    ensures |now| <= |start| + |after.actions|
  {
    SubsetSize(names, after.actions.Keys);
    forall f | f in now ensures
      if f.severity == Info then f.action in after.actions.Keys - before.actions.Keys else Lost(before, after, f.action)
    {
      var i :| 0 <= i < |now| && now[i] == f;
      assert i < |start| ==> start[i] == f && f in start;
    }
    assert forall i | 0 <= i < |start| :: now[i] == start[i];
  }

  lemma {:induction false} CatalogSize(items: seq<Json<real>>, n: nat, backend: bool)
    requires n <= |items| && forall i | 0 <= i < n :: ItemOk(items[i], backend)
    ensures |ReadItems(items, n, backend)| <= n
  {
    if n > 0 {
      CatalogSize(items, n - 1, backend);
      var front, last := ReadItems(items, n - 1, backend), ReadItem(items[n - 1], backend);
      assert front[last.name := last].Keys == front.Keys + {last.name};
    }
  }

  lemma CatalogFacts(manifest: Json<real>, size: nat)
    requires Readable(manifest, size)
    ensures NamesOk(CatalogOf(manifest)) && |CatalogOf(manifest).actions| <= 1000
  {
    var items := Listing(manifest).value.items;
    ReadItemsAreObjects(items, |items|, IsBackend(manifest));
    CatalogSize(items, |items|, IsBackend(manifest));
  }

  lemma NothingSerious(findings: seq<Finding>, name: string)
    requires AllInfo(findings)
    ensures !Found(findings, name, false)
  {
    forall f | f in findings ensures f.severity == Info {
      var i :| 0 <= i < |findings| && findings[i] == f;
    }
  }

  /** Serious findings are there exactly when an action is lost. */
  lemma SeriousExactly(before: Catalog, after: Catalog, findings: seq<Finding>)
    requires Sound(before, after, findings) && LostFound(before, after, before.actions.Keys, findings)
    requires before.backend == after.backend
    ensures AllInfo(findings) <==> Compatible(before, after)
  {
    if Compatible(before, after) {
      forall i | 0 <= i < |findings| ensures findings[i].severity == Info {
        assert findings[i] in findings && !Lost(before, after, findings[i].action);
      }
    }
    if AllInfo(findings) {
      forall name | name in before.actions
        ensures name in after.actions && ActionKept(before.actions[name], after.actions[name], before.backend)
      {
        NothingSerious(findings, name);
        assert !Lost(before, after, name);
      }
    }
  }

  /** Both manifests can be read and are of one kind. */
  predicate Comparable(baseline: Json<real>, baselineSize: nat, candidate: Json<real>, candidateSize: nat) {
    && Readable(baseline, baselineSize) && Readable(candidate, candidateSize)
    && CatalogOf(baseline).backend == CatalogOf(candidate).backend
  }

  /** What becomes of two catalogs: a report with exactly the lost and the new actions, or a full list of findings of
      which at least one more is due. */
  ghost predicate Judged(before: Catalog, after: Catalog, r: Result<Report, string>, found: seq<Finding>) {
    && Sound(before, after, found)
    && (r.Err? ==> !Compatible(before, after) && |found| >= MAX_FINDINGS)
    && (r.Ok? ==>
          && r.value == Report(Compatible(before, after), found) && Exhaustive(before, after, found)
          && (r.value.ok <==> AllInfo(found)))
  }

  /** Compares two manifests.  Comparable ones always get a report, unless they are incompatible and the list of
      findings is full; a report is ok exactly when they are compatible, and its findings name exactly the lost and
      the new actions. */
  method CompareContracts(baseline: Json<real>, baselineSize: nat, candidate: Json<real>, candidateSize: nat)
    returns (r: Result<Report, string>, ghost found: seq<Finding>)
    ensures !Comparable(baseline, baselineSize, candidate, candidateSize) ==> r.Err?
    ensures Comparable(baseline, baselineSize, candidate, candidateSize) ==>
      Judged(CatalogOf(baseline), CatalogOf(candidate), r, found)
  {
    found := [];
    var before := Actions(baseline, baselineSize);
    if before.Err? { return Err(before.error), []; }
    var after := Actions(candidate, candidateSize);
    if after.Err? { return Err(after.error), []; }
    if before.value.backend != after.value.backend {
      return Err("Compare manifests of the same kind."), [];
    }
    CatalogFacts(baseline, baselineSize);
    CatalogFacts(candidate, candidateSize);
    r, found := CompareCatalogs(before.value, after.value);
  }

  method CompareCatalogs(before: Catalog, after: Catalog) returns (r: Result<Report, string>, ghost found: seq<Finding>)
    requires before.backend == after.backend && NamesOk(before) && |after.actions| <= 1000
    ensures Judged(before, after, r, found)
  {
    var c := new Comparison();
    var outcome := CompareKnown(c, before, after);
    found := c.findings;
    if outcome.Fail? { return Err(outcome.error), found; }
    SeriousExactly(before, after, found);
    CompatibleIsEmpty(before, after, found);
    ghost var noted;
    outcome, noted := CompareAdded(c, after.actions.Keys - before.actions.Keys);
    NotedFacts(before, after, found, c.findings, noted);
    StillFound(before, after, found, c.findings);
    found := c.findings;
    if outcome.Fail? { return Err(outcome.error), found; }
    return Ok(Report(AllInfo(c.findings), c.findings)), found;
  }

  lemma CompatibleIsEmpty(before: Catalog, after: Catalog, findings: seq<Finding>)
    requires AllInfo(findings) <==> Compatible(before, after)
    requires forall f | f in findings :: f.severity != Info
    ensures Compatible(before, after) ==> findings == []
  {
    assert findings != [] ==> findings[0] in findings;
  }

  lemma StillFound(before: Catalog, after: Catalog, a: seq<Finding>, b: seq<Finding>)
    requires a <= b && LostFound(before, after, before.actions.Keys, a)
    ensures LostFound(before, after, before.actions.Keys, b)
  {
    forall name | name in before.actions.Keys && Lost(before, after, name) ensures Found(b, name, false) {
      FoundExtends(a, b, name, false);
    }
  }

  // ----- What a report that is ok promises -----

  predicate SchemasWellFormed(c: Catalog) {
    forall name | name in c.actions :: WellFormed(c.actions[name].input) && WellFormed(c.actions[name].output)
  }

  /** A compatible catalog keeps every action, accepts every old argument and returns only old results. */
  lemma CompatibleCatalogsAreSafe(before: Catalog, after: Catalog, ext: Extension)
    requires Compatible(before, after)
    requires SchemasWellFormed(before) && SchemasWellFormed(after)
    requires forall name | name in after.actions :: Agrees(after.actions[name].input)
    requires forall name | name in before.actions :: Agrees(before.actions[name].output)
    ensures forall name | name in before.actions ::
              && name in after.actions
              && Includes(before.actions[name].input, after.actions[name].input, ext)
              && Includes(after.actions[name].output, before.actions[name].output, ext)
  {
    forall name | name in before.actions
      ensures name in after.actions
      ensures Includes(before.actions[name].input, after.actions[name].input, ext)
      ensures Includes(after.actions[name].output, before.actions[name].output, ext)
    {
      var old_, next := before.actions[name], after.actions[name];
      assert ActionKept(old_, next, before.backend);
      forall v | Valid(old_.input, v, ext) ensures Valid(next.input, v, ext) {
        SubsumesSound(old_.input, next.input, 0, v, ext);
      }
      forall v | Valid(next.output, v, ext) ensures Valid(old_.output, v, ext) {
        SubsumesSound(next.output, old_.output, 0, v, ext);
      }
    }
  }

  /** A readable manifest is compatible with itself, except that tools must state their scope and paths. */
  lemma SelfCompatible(manifest: Json<real>, size: nat)
    requires Readable(manifest, size)
    ensures var c := CatalogOf(manifest);
            Compatible(c, c) <==> forall name | name in c.actions ::
              && StrictlyEqual(c.actions[name].actionPath, c.actions[name].actionPath)
              && ScopesKnown(c.actions[name], c.actions[name], c.backend)
  {
    var items := Listing(manifest).value.items;
    ReadItemsAreObjects(items, |items|, IsBackend(manifest));
  }

  lemma {:induction false} ReadItemsAreObjects(items: seq<Json<real>>, n: nat, backend: bool)
    requires n <= |items| && forall i | 0 <= i < n :: ItemOk(items[i], backend)
    ensures forall name | name in ReadItems(items, n, backend) ::
              var a := ReadItems(items, n, backend)[name];
              a.input.Object? && a.output.Object? && a.name == name
  {
    if n > 0 {
      ReadItemsAreObjects(items, n - 1, backend);
    }
  }
}
