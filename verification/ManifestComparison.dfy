/** Compatibility of two manifests, told by the entries they list. */
module ManifestComparison {
  import opened Wrappers
  import opened Json
  import opened ContractComparison
  import C = ContractCompatibility

  function Items(manifest: Json<real>): seq<Json<real>> {
    var list := Get(manifest, if IsBackend(manifest) then "functions" else "tools");
    if list.Some? && list.value.Array? then list.value.items else []
  }

  predicate Says(item: Json<real>, key: string, value: Json<real>) {
    item.Object? && key in item.fields && item.fields[key] == value
  }

  /** The schema under a key, or the one that accepts everything. */
  function SchemaAt(item: Json<real>, key: string): Json<real> {
    if item.Object? && key in item.fields then item.fields[key] else Object(map[])
  }

  predicate ReadOnly(item: Json<real>) {
    item.Object? && "annotations" in item.fields && Says(item.fields["annotations"], "readOnlyHint", Bool(true))
  }

  /** Neither states the property, or both state the same text, number or the like. */
  predicate SameScalar(o: Json<real>, n: Json<real>, key: string) {
    Get(o, key) == Get(n, key) && (Get(o, key).Some? ==> !Get(o, key).value.Object? && !Get(o, key).value.Array?)
  }

  /** What a caller of the old entry relies on holds of the new one, whichever kind of manifest lists them. */
  predicate StaysCallable(o: Json<real>, n: Json<real>) {
    && (Says(n, "access", String("required")) ==> Says(o, "access", String("required")))
    && (Says(o, "agent", Bool(true)) ==> Says(n, "agent", Bool(true)))
    && SameScalar(o, n, "actionPath")
  }

  predicate FunctionKept(o: Json<real>, n: Json<real>) {
    && Get(o, "kind") == Get(n, "kind") && StaysCallable(o, n)
    && C.Subsumes(SchemaAt(o, "args"), SchemaAt(n, "args"), 0)
    && C.Subsumes(SchemaAt(n, "returns"), SchemaAt(o, "returns"), 0)
  }

  predicate ToolKept(o: Json<real>, n: Json<real>) {
    && (ReadOnly(o) <==> ReadOnly(n)) && StaysCallable(o, n)
    && Get(o, "requiredScope").Some? && Get(o, "requiredScope") == Get(n, "requiredScope")
    && !Says(o, "requiredScope", String(""))
    && C.Subsumes(SchemaAt(o, "inputSchema"), SchemaAt(n, "inputSchema"), 0)
    && C.Subsumes(SchemaAt(n, "outputSchema"), SchemaAt(o, "outputSchema"), 0)
  }

  lemma ReadItemKept(o: Json<real>, n: Json<real>, backend: bool)
    requires ItemOk(o, backend) && ItemOk(n, backend)
    ensures ActionKept(ReadItem(o, backend), ReadItem(n, backend), backend) <==>
      if backend then FunctionKept(o, n) else ToolKept(o, n)
  {
    var a, b := ReadItem(o, backend), ReadItem(n, backend);
    assert a.input == SchemaAt(o, InputKey(backend)) && b.input == SchemaAt(n, InputKey(backend));
    assert a.output == SchemaAt(o, OutputKey(backend)) && b.output == SchemaAt(n, OutputKey(backend));
    assert AccessKept(a, b) <==> (Says(n, "access", String("required")) ==> Says(o, "access", String("required")));
    assert (a.agent <==> Says(o, "agent", Bool(true))) && (b.agent <==> Says(n, "agent", Bool(true)));
    assert StrictlyEqual(a.actionPath, b.actionPath) <==> SameScalar(o, n, "actionPath");
    if backend {
      assert a.kind == Get(o, "kind") && b.kind == Get(n, "kind");
    } else {
      assert (a.kind == b.kind) <==> (ReadOnly(o) <==> ReadOnly(n));
      ToolScopes(o, n);
    }
  }

  lemma ToolScopes(o: Json<real>, n: Json<real>)
    requires ItemOk(o, false) && ItemOk(n, false)
    ensures var a, b := ReadItem(o, false), ReadItem(n, false);
            ScopesKnown(a, b, false) && a.scope == b.scope <==>
              && Get(o, "requiredScope").Some? && Get(o, "requiredScope") == Get(n, "requiredScope")
              && !Says(o, "requiredScope", String(""))
  {
  }

  lemma {:induction false} ReadItemsAt(items: seq<Json<real>>, n: nat, backend: bool, i: nat)
    requires i < n <= |items| && ItemsOk(items, n, backend)
    ensures NameOf(items[i]) in ReadItems(items, n, backend)
    ensures ReadItems(items, n, backend)[NameOf(items[i])] == ReadItem(items[i], backend)
  {
    var last := ReadItem(items[n - 1], backend);
    assert last.name == NameOf(items[n - 1]);
    assert ReadItems(items, n, backend) == ReadItems(items, n - 1, backend)[last.name := last];
    if i < n - 1 {
      ReadItemsAt(items, n - 1, backend, i);
      assert NameOf(items[i]) != NameOf(items[n - 1]);
    }
  }

  /** The entry kept under the same name in the other list. */
  predicate KeptIn(o: Json<real>, items: seq<Json<real>>, backend: bool) {
    exists n :: n in items && NameOf(n) == NameOf(o) && if backend then FunctionKept(o, n) else ToolKept(o, n)
  }

  /** Of two manifests that can be compared, the new one is compatible with the old one exactly if it lists, under
      the name of every old entry, one that is as open, on which agents, paths and scopes agree, that takes at least
      the old arguments and returns at most the old results. */
  lemma CompatibleManifests(baseline: Json<real>, baselineSize: nat, candidate: Json<real>, candidateSize: nat)
    requires Comparable(baseline, baselineSize, candidate, candidateSize)
    ensures Compatible(CatalogOf(baseline), CatalogOf(candidate)) <==>
      forall o | o in Items(baseline) :: KeptIn(o, Items(candidate), IsBackend(baseline))
  {
    var olds, news, backend := Items(baseline), Items(candidate), IsBackend(baseline);
    forall o | o in olds
      ensures NameOf(o) in CatalogOf(baseline).actions
      ensures KeptIn(o, news, backend) <==> !Lost(CatalogOf(baseline), CatalogOf(candidate), NameOf(o))
    {
      var i :| 0 <= i < |olds| && olds[i] == o;
      EntryKept(olds, news, backend, i);
    }
    ReadItemsNames(olds, |olds|, backend);
    forall name | name in CatalogOf(baseline).actions ensures exists o :: o in olds && NameOf(o) == name {
      var i :| 0 <= i < |olds| && NameOf(olds[i]) == name;
      assert olds[i] in olds;
    }
  }

  lemma EntryKept(olds: seq<Json<real>>, news: seq<Json<real>>, backend: bool, i: nat)
    requires ItemsOk(olds, |olds|, backend) && ItemsOk(news, |news|, backend) && i < |olds|
    ensures var before, after := ReadItems(olds, |olds|, backend), ReadItems(news, |news|, backend);
            var name := NameOf(olds[i]);
            && name in before
            && (KeptIn(olds[i], news, backend) <==> name in after && ActionKept(before[name], after[name], backend))
  {
    var name := NameOf(olds[i]);
    ReadItemsAt(olds, |olds|, backend, i);
    ReadItemsNames(news, |news|, backend);
    forall n | n in news && NameOf(n) == name
      ensures name in ReadItems(news, |news|, backend)
      ensures ReadItems(news, |news|, backend)[name] == ReadItem(n, backend)
      ensures ActionKept(ReadItem(olds[i], backend), ReadItem(n, backend), backend) <==>
                if backend then FunctionKept(olds[i], n) else ToolKept(olds[i], n)
    {
      var j :| 0 <= j < |news| && news[j] == n;
      ReadItemsAt(news, |news|, backend, j);
      ReadItemKept(olds[i], n, backend);
    }
    if name in ReadItems(news, |news|, backend) {
      var j :| 0 <= j < |news| && NameOf(news[j]) == name;
      assert news[j] in news;
    }
  }

  // ----- Which manifests can be read -----

  /** An entry names an action and states its schemas, and a function also its kind and access. */
  predicate EntryReadable(item: Json<real>, backend: bool) {
    && item.Object? && "name" in item.fields && item.fields["name"].String? && 1 <= |item.fields["name"].s| <= 256
    && (forall c | c in item.fields["name"].s ::
          'A' <= c <= 'Z' || 'a' <= c <= 'z' || '0' <= c <= '9' || c in {'_', '.', '-'})
    && (backend ==>
          && (Says(item, "kind", String("query")) || Says(item, "kind", String("mutation")))
          && (Says(item, "access", String("public")) || Says(item, "access", String("required"))))
    && ("requiredScope" in item.fields ==>
          item.fields["requiredScope"].String? && |item.fields["requiredScope"].s| <= 256)
    && SchemaStated(item, if backend then "args" else "inputSchema", true)
    && SchemaStated(item, if backend then "returns" else "outputSchema", false)
  }

  predicate SchemaStated(item: Json<real>, key: string, needed: bool) {
    item.Object? && if key in item.fields then item.fields[key].Object? else !needed
  }

  /** A manifest is read exactly if it is a whole listing of at most 1000 readable entries under different names,
      within two million characters. */
  lemma ReadableExactly(manifest: Json<real>, size: nat)
    ensures Readable(manifest, size) <==>
      && size <= 2_000_000 && !Truthy(Get(manifest, "nextCursor"))
      && Get(manifest, if IsBackend(manifest) then "functions" else "tools").Some?
      && Get(manifest, if IsBackend(manifest) then "functions" else "tools").value.Array?
      && |Items(manifest)| <= 1000
      && (forall item | item in Items(manifest) :: EntryReadable(item, IsBackend(manifest)))
      && (forall i, j | 0 <= i < j < |Items(manifest)| ::
            Get(Items(manifest)[i], "name") != Get(Items(manifest)[j], "name"))
  {
    var items, backend := Items(manifest), IsBackend(manifest);
    forall item ensures ItemOk(item, backend) <==> EntryReadable(item, backend) {
      EntryReadableExactly(item, backend);
    }
    if Readable(manifest, size) {
      forall i, j | 0 <= i < j < |items| ensures Get(items[i], "name") != Get(items[j], "name") {
        assert NameOf(items[i]) != NameOf(items[j]);
      }
    }
    if forall item | item in items :: EntryReadable(item, backend) {
      forall i | 0 <= i < |items| ensures ItemOk(items[i], backend) {
        assert items[i] in items;
      }
    }
  }

  lemma EntryReadableExactly(item: Json<real>, backend: bool)
    ensures ItemOk(item, backend) <==> EntryReadable(item, backend)
    ensures ItemOk(item, backend) ==> Get(item, "name") == Some(String(NameOf(item)))
  {
  }
}
