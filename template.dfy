/** The template registry: an insertion-ordered index of template records
    built document by document from template files, the queries over it, the
    per-kind registry of parsers and workers, and the cache of parsed items. */
module Templates {
  import opened Values
  import Naming

  /** A kind's parser: template name to the resolved item value. */
  type Parser = string -> Value
  /** A kind's worker: validated process arguments to its result. */
  type Worker = Value -> Value

  datatype KindInfo = KindInfo(
    kind: string,
    worker: Option<Worker>,
    parser: Option<Parser>,
    options: map<string, Value>)

  /** One entry of the `kind_settings` list given to `init`; a missing
      `options` entry reads as an empty dictionary. */
  datatype KindSetting = KindSetting(
    kind: string,
    worker: Option<Worker>,
    parser: Option<Parser>,
    options: Option<map<string, Value>>)

  datatype Item = Item(kind: string, name: string, value: Value)

  /** The item cache: kind to name to item. */
  type Items = map<string, map<string, Item>>

  /** The collaborators the registry is built with: the schema validator of
      the utility module, the schemas read from the settings, and the two
      matching helpers `find` uses. */
  datatype Tools = Tools(
    checkTemplate: Document -> bool,
    templateSchemas: map<string, Value>,
    processSchemas: map<string, Value>,
    validate: (Value, Value) -> Option<Value>,
    isObjLookingFor: (Value, map<string, Value>) -> bool,
    isArrayLookingFor: (seq<string>, seq<string>) -> bool)

  /** A template file found by the directory walk, already parsed. */
  datatype SourceFile = SourceFile(path: string, documents: seq<Document>)

  /** How a load ended and the index it left behind (nothing is rolled back). */
  datatype Loaded = Loaded(outcome: Outcome, index: Index)

  /** How a pass over the item cache ended and the cache it left behind. */
  datatype Cached = Cached(outcome: Outcome, items: Items)

  // ---------------------------------------------------------------------
  // Loading documents

  /** The name a document is indexed under: its own, or for the sentinel
      "random" the name generated from the path and the position. */
  function ResolvedName(path: string, position: nat, doc: Document): string {
    if doc.name == "random" then Naming.RandomName(path, position) else doc.name
  }

  /** What every indexed record satisfies: it is stored under its own name,
      its kind, name and category are non-empty, its meta is a dictionary, it
      agrees with the document it keeps, and that document still carries the
      sentinel name exactly when the name was generated. */
  predicate Admissible(name: string, r: Record) {
    && r.name == name
    && name != ""
    && r.kind != ""
    && r.category != ""
    && r.meta.Dict?
    && r.template.kind == r.kind
    && r.template.category == r.category
    && r.template.tags == r.tags
    && r.template.meta == r.meta
    && (if r.randomName then r.template.name == "random" else r.template.name == name)
  }

  ghost predicate Admitted(idx: Index) {
    && idx.Valid()
    && forall n :: n in idx.entries ==> Admissible(n, idx.entries[n])
  }

  /** The checks that follow the duplicate-name check, in their order, and
      the record the document is indexed as. */
  function Admit(tools: Tools, path: string, position: nat, doc: Document): (r: Result<Record>)
    ensures r.Ok? ==> Admissible(ResolvedName(path, position, doc), r.value)
    ensures r.Ok? ==> r.value.path == path && r.value.randomName == (doc.name == "random")
    ensures r.Ok? ==> r.value.template == doc.(spec := r.value.template.spec)
    ensures r.Ok? <==>
      && doc.kind != "" && ResolvedName(path, position, doc) != "" && doc.category != "" && doc.meta.Dict?
      && doc.kind in tools.templateSchemas && tools.validate(doc.spec, tools.templateSchemas[doc.kind]).Some?
    ensures r.Ok? ==> r.value.template.spec == tools.validate(doc.spec, tools.templateSchemas[doc.kind]).value
  {
    var name := ResolvedName(path, position, doc);
    if doc.kind == "" then Err(EmptyKind)
    else if name == "" then Err(EmptyName)
    else if doc.category == "" then Err(EmptyCategory)
    else if !doc.meta.Dict? then Err(MetaNotDict)
    else if doc.kind !in tools.templateSchemas then Err(KeyMissing(doc.kind))
    else match tools.validate(doc.spec, tools.templateSchemas[doc.kind])
      case None => Err(SchemaViolation)
      case Some(spec) =>
        Ok(Record(doc.kind, name, doc.category, doc.tags, doc.(spec := spec), path, doc.meta, doc.name == "random"))
  }

  /** One iteration of `load`: validation against the layer schema, the
      duplicate-name check (skipped by an update), the remaining checks, and
      the write into the index. */
  function LoadDocument(tools: Tools, idx: Index, path: string, position: nat, doc: Document, update: bool): Result<Index>
    requires idx.Valid()
  {
    if !tools.checkTemplate(doc) then Err(SchemaViolation)
    else
      var name := ResolvedName(path, position, doc);
      if name in idx.entries && !update then Err(NameExists(name))
      else match Admit(tools, path, position, doc)
        case Err(e) => Err(e)
        case Ok(r) => Ok(idx.Put(name, r))
  }

  /** `load` from the document at `position` on: the first failure stops
      the loop and keeps everything indexed before it. */
  function LoadFrom(tools: Tools, idx: Index, path: string, docs: seq<Document>, position: nat, update: bool): (r: Loaded)
    requires idx.Valid() && position <= |docs|
    ensures r.index.Valid()
    ensures Admitted(idx) ==> Admitted(r.index)
    decreases |docs| - position
  {
    if position == |docs| then Loaded(Done, idx)
    else match LoadDocument(tools, idx, path, position, docs[position], update)
      case Err(e) => Loaded(Raised(e), idx)
      case Ok(next) => LoadFrom(tools, next, path, docs, position + 1, update)
  }

  /** One unfolding of `LoadFrom`. */
  lemma LoadFromStep(tools: Tools, idx: Index, path: string, docs: seq<Document>, position: nat, update: bool)
    requires idx.Valid() && position < |docs|
    ensures var step := LoadDocument(tools, idx, path, position, docs[position], update);
      LoadFrom(tools, idx, path, docs, position, update)
        == if step.Err? then Loaded(Raised(step.error), idx) else LoadFrom(tools, step.value, path, docs, position + 1, update)
  {
  }

  function LoadFile(tools: Tools, idx: Index, path: string, docs: seq<Document>, update: bool): (r: Loaded)
    requires idx.Valid()
  {
    LoadFrom(tools, idx, path, docs, 0, update)
  }

  /** `_loads` from file `i` on: every file is loaded without `update`, and
      the first failure stops the walk. */
  function LoadAllFrom(tools: Tools, idx: Index, files: seq<SourceFile>, i: nat): (r: Loaded)
    requires idx.Valid() && i <= |files|
    ensures r.index.Valid()
    ensures Admitted(idx) ==> Admitted(r.index)
    decreases |files| - i
  {
    if i == |files| then Loaded(Done, idx)
    else
      var loaded := LoadFile(tools, idx, files[i].path, files[i].documents, false);
      if loaded.outcome.Raised? then loaded
      else LoadAllFrom(tools, loaded.index, files, i + 1)
  }

  function LoadAll(tools: Tools, files: seq<SourceFile>): Loaded {
    LoadAllFrom(tools, EmptyIndex, files, 0)
  }

  // ---------------------------------------------------------------------
  // Properties of loading

  /** What one successful iteration of `load` did: it admitted the document
      and wrote it under its resolved name, which without `update` was new. */
  lemma LoadDocumentEffect(tools: Tools, idx: Index, path: string, position: nat, doc: Document, update: bool)
    requires idx.Valid()
    requires LoadDocument(tools, idx, path, position, doc, update).Ok?
    ensures Admit(tools, path, position, doc).Ok?
    ensures LoadDocument(tools, idx, path, position, doc, update).value
         == idx.Put(ResolvedName(path, position, doc), Admit(tools, path, position, doc).value)
    ensures !update ==> ResolvedName(path, position, doc) !in idx.entries
    ensures Admitted(idx) ==> Admitted(LoadDocument(tools, idx, path, position, doc, update).value)
  {
  }

  /** Loading a prefix of the documents takes the same first step. */
  /** A document whose name is already indexed is refused with "name
      already exists" when it is not an update, once it passes the layer
      schema. */
  lemma DuplicateDocumentRejected(tools: Tools, idx: Index, path: string, position: nat, doc: Document)
    requires idx.Valid() && tools.checkTemplate(doc) && ResolvedName(path, position, doc) in idx.entries
    ensures LoadDocument(tools, idx, path, position, doc, false) == Err(NameExists(ResolvedName(path, position, doc)))
  {
  }

  lemma LoadPrefixStep(tools: Tools, idx: Index, path: string, docs: seq<Document>, position: nat, j: nat, update: bool)
    requires idx.Valid() && position < j <= |docs|
    requires LoadDocument(tools, idx, path, position, docs[position], update).Ok?
    ensures LoadFrom(tools, idx, path, docs[..j], position, update)
         == LoadFrom(tools, LoadDocument(tools, idx, path, position, docs[position], update).value, path, docs[..j], position + 1, update)
  {
    assert docs[..j][position] == docs[position];
  }


  /** A load that reaches document `j` with that document's name already
      indexed raises "name already exists" for that name, provided the
      document passes the layer schema. */
  lemma {:induction false} NameExistsAt(tools: Tools, idx: Index, path: string, docs: seq<Document>, position: nat, j: nat)
    requires idx.Valid() && position <= j < |docs|
    requires LoadFrom(tools, idx, path, docs[..j], position, false).outcome.Done?
    requires tools.checkTemplate(docs[j])
    requires ResolvedName(path, j, docs[j]) in LoadFrom(tools, idx, path, docs[..j], position, false).index.entries
    ensures LoadFrom(tools, idx, path, docs, position, false).outcome == Raised(NameExists(ResolvedName(path, j, docs[j])))
    decreases j - position
  {
    LoadFromStep(tools, idx, path, docs, position, false);
    if position == j {
      DuplicateDocumentRejected(tools, idx, path, j, docs[j]);
    } else {
      var step := LoadDocument(tools, idx, path, position, docs[position], false);
      if step.Ok? {
        LoadPrefixStep(tools, idx, path, docs, position, j, false);
        NameExistsAt(tools, step.value, path, docs, position + 1, j);
      }
    }
  }

  /** Loading `docs[position..j]` succeeds and leaves `stopped`, and the
      document at `j` then fails with `error`. */
  ghost predicate FailsAt(tools: Tools, idx: Index, path: string, docs: seq<Document>, position: nat, update: bool,
                    j: nat, stopped: Index, error: Error)
    requires idx.Valid()
  {
    && position <= j < |docs|
    && LoadFrom(tools, idx, path, docs[..j], position, update) == Loaded(Done, stopped)
    && stopped.Valid()
    && LoadDocument(tools, stopped, path, j, docs[j], update) == Err(error)
  }

  /** A failed load stops at one document: the index it leaves is exactly
      what loading the documents before that one produces, and that document
      is the one that fails. */
  lemma {:induction false} LoadStopsAtFailingDocument(
    tools: Tools, idx: Index, path: string, docs: seq<Document>, position: nat, update: bool)
    requires idx.Valid() && position <= |docs|
    requires LoadFrom(tools, idx, path, docs, position, update).outcome.Raised?
    ensures var r := LoadFrom(tools, idx, path, docs, position, update);
      exists j :: FailsAt(tools, idx, path, docs, position, update, j, r.index, r.outcome.error)
    decreases |docs| - position
  {
    var r := LoadFrom(tools, idx, path, docs, position, update);
    var step := LoadDocument(tools, idx, path, position, docs[position], update);
    if step.Err? {
      assert r == Loaded(Raised(step.error), idx);
      assert LoadFrom(tools, idx, path, docs[..position], position, update) == Loaded(Done, r.index);
      assert FailsAt(tools, idx, path, docs, position, update, position, r.index, r.outcome.error);
    } else {
      assert r == LoadFrom(tools, step.value, path, docs, position + 1, update);
      LoadStopsAtFailingDocument(tools, step.value, path, docs, position + 1, update);
      var j :| FailsAt(tools, step.value, path, docs, position + 1, update, j, r.index, r.outcome.error);
      LoadPrefixStep(tools, idx, path, docs, position, j, update);
      assert FailsAt(tools, idx, path, docs, position, update, j, r.index, r.outcome.error);
    }
  }

  /** A load that is not an update never replaces or removes a record, and
      the names already indexed keep their places in the iteration order. */
  lemma {:induction false} LoadWithoutUpdateKeepsRecords(
    tools: Tools, idx: Index, path: string, docs: seq<Document>, position: nat)
    requires idx.Valid() && position <= |docs|
    ensures idx.KeptIn(LoadFrom(tools, idx, path, docs, position, false).index)
    decreases |docs| - position
  {
    var r := LoadFrom(tools, idx, path, docs, position, false);
    if position < |docs| {
      LoadFromStep(tools, idx, path, docs, position, false);
      var step := LoadDocument(tools, idx, path, position, docs[position], false);
      if step.Ok? {
        LoadDocumentEffect(tools, idx, path, position, docs[position], false);
        assert idx.KeptIn(step.value);
        LoadWithoutUpdateKeepsRecords(tools, step.value, path, docs, position + 1);
        KeptInTransitive(idx, step.value, r.index);
      } else {
        assert r.index == idx;
      }
    } else {
      assert r.index == idx;
    }
  }

  /** A document whose name is already indexed makes a load without
      `update` fail, and the record indexed under that name stays as it was. */
  lemma {:induction false} DuplicateNameStopsLoad(
    tools: Tools, idx: Index, path: string, docs: seq<Document>, position: nat, j: nat)
    requires idx.Valid() && position <= j < |docs|
    requires ResolvedName(path, j, docs[j]) in idx.entries
    ensures var r := LoadFrom(tools, idx, path, docs, position, false);
      && r.outcome.Raised?
      && ResolvedName(path, j, docs[j]) in r.index.entries
      && r.index.entries[ResolvedName(path, j, docs[j])] == idx.entries[ResolvedName(path, j, docs[j])]
    decreases |docs| - position
  {
    LoadWithoutUpdateKeepsRecords(tools, idx, path, docs, position);
    LoadFromStep(tools, idx, path, docs, position, false);
    var step := LoadDocument(tools, idx, path, position, docs[position], false);
    if step.Ok? {
      LoadDocumentEffect(tools, idx, path, position, docs[position], false);
      assert position != j;
      DuplicateNameStopsLoad(tools, step.value, path, docs, position + 1, j);
    }
  }

  /** The same, with the error named: once the documents before it have
      loaded and it passes the layer schema, the duplicate document raises
      "name already exists" for its name. */
  lemma DuplicateNameRejected(
    tools: Tools, idx: Index, path: string, docs: seq<Document>, position: nat, j: nat)
    requires idx.Valid() && position <= j < |docs|
    requires ResolvedName(path, j, docs[j]) in idx.entries
    ensures var r := LoadFrom(tools, idx, path, docs, position, false);
      && r.outcome.Raised?
      && ResolvedName(path, j, docs[j]) in r.index.entries
      && r.index.entries[ResolvedName(path, j, docs[j])] == idx.entries[ResolvedName(path, j, docs[j])]
    ensures LoadFrom(tools, idx, path, docs[..j], position, false).outcome.Done? && tools.checkTemplate(docs[j]) ==>
      LoadFrom(tools, idx, path, docs, position, false).outcome == Raised(NameExists(ResolvedName(path, j, docs[j])))
  {
    DuplicateNameStopsLoad(tools, idx, path, docs, position, j);
    if LoadFrom(tools, idx, path, docs[..j], position, false).outcome.Done? && tools.checkTemplate(docs[j]) {
      LoadWithoutUpdateKeepsRecords(tools, idx, path, docs[..j], position);
      NameExistsAt(tools, idx, path, docs, position, j);
    }
  }

  /** Two documents of one file with the same explicit name make a load
      without `update` fail. */
  lemma {:induction false} RepeatedNameStopsLoad(
    tools: Tools, idx: Index, path: string, docs: seq<Document>, position: nat, i: nat, j: nat)
    requires idx.Valid() && position <= j < |docs| && i < j
    requires docs[i].name == docs[j].name != "random"
    requires position <= i || docs[j].name in idx.entries
    ensures LoadFrom(tools, idx, path, docs, position, false).outcome.Raised?
    decreases |docs| - position
  {
    if docs[j].name in idx.entries {
      DuplicateNameStopsLoad(tools, idx, path, docs, position, j);
    } else {
      LoadFromStep(tools, idx, path, docs, position, false);
      var step := LoadDocument(tools, idx, path, position, docs[position], false);
      if step.Ok? {
        LoadDocumentEffect(tools, idx, path, position, docs[position], false);
        RepeatedNameStopsLoad(tools, step.value, path, docs, position + 1, i, j);
      }
    }
  }

  /** The same, with the error named: once the documents before the second
      one have loaded and it passes the layer schema, it raises "name already
      exists" for the shared name. */
  lemma RepeatedNameRejected(
    tools: Tools, idx: Index, path: string, docs: seq<Document>, position: nat, i: nat, j: nat)
    requires idx.Valid() && position <= j < |docs| && i < j
    requires docs[i].name == docs[j].name != "random"
    requires position <= i || docs[j].name in idx.entries
    ensures LoadFrom(tools, idx, path, docs, position, false).outcome.Raised?
    ensures LoadFrom(tools, idx, path, docs[..j], position, false).outcome.Done? && tools.checkTemplate(docs[j]) ==>
      LoadFrom(tools, idx, path, docs, position, false).outcome == Raised(NameExists(docs[j].name))
  {
    RepeatedNameStopsLoad(tools, idx, path, docs, position, i, j);
    if LoadFrom(tools, idx, path, docs[..j], position, false).outcome.Done? && tools.checkTemplate(docs[j]) {
      RepeatedNameReached(tools, idx, path, docs, position, i, j);
    }
  }

  /** Once the documents before `j` have loaded, the name shared by
      documents `i` and `j` is in the index the load has reached. */
  lemma RepeatedNameReached(
    tools: Tools, idx: Index, path: string, docs: seq<Document>, position: nat, i: nat, j: nat)
    requires idx.Valid() && position <= j < |docs| && i < j
    requires docs[i].name == docs[j].name != "random"
    requires position <= i || docs[j].name in idx.entries
    requires LoadFrom(tools, idx, path, docs[..j], position, false).outcome.Done? && tools.checkTemplate(docs[j])
    ensures LoadFrom(tools, idx, path, docs, position, false).outcome == Raised(NameExists(docs[j].name))
  {
    if position <= i {
      LoadedFileNamesIndexed(tools, idx, path, docs[..j], position, i);
      assert docs[..j][i] == docs[i];
    } else {
      LoadWithoutUpdateKeepsRecords(tools, idx, path, docs[..j], position);
    }
    NameExistsAt(tools, idx, path, docs, position, j);
  }


  /** Loading never touches the record of a name that none of the remaining
      documents resolves to. */
  lemma {:induction false} LoadLeavesOtherNames(
    tools: Tools, idx: Index, path: string, docs: seq<Document>, position: nat, update: bool, n: string)
    requires idx.Valid() && position <= |docs|
    requires forall k :: position <= k < |docs| ==> ResolvedName(path, k, docs[k]) != n
    ensures var r := LoadFrom(tools, idx, path, docs, position, update);
      (n in r.index.entries <==> n in idx.entries)
      && (n in idx.entries ==> r.index.entries[n] == idx.entries[n])
    decreases |docs| - position
  {
    if position < |docs| {
      LoadFromStep(tools, idx, path, docs, position, update);
      var step := LoadDocument(tools, idx, path, position, docs[position], update);
      if step.Ok? {
        LoadDocumentEffect(tools, idx, path, position, docs[position], update);
        LoadLeavesOtherNames(tools, step.value, path, docs, position + 1, update, n);
      }
    }
  }

  /** After a load that succeeds, every document of the file is indexed
      under its resolved name, as the record `Admit` builds for the last
      document with that name (an update may meet a name more than once). */
  lemma {:induction false} LoadedFileIsIndexed(
    tools: Tools, idx: Index, path: string, docs: seq<Document>, position: nat, update: bool, j: nat)
    requires idx.Valid() && position <= j < |docs|
    requires LoadFrom(tools, idx, path, docs, position, update).outcome.Done?
    requires forall k :: j < k < |docs| ==> ResolvedName(path, k, docs[k]) != ResolvedName(path, j, docs[j])
    ensures var r := LoadFrom(tools, idx, path, docs, position, update);
      && Admit(tools, path, j, docs[j]).Ok?
      && ResolvedName(path, j, docs[j]) in r.index.entries
      && r.index.entries[ResolvedName(path, j, docs[j])] == Admit(tools, path, j, docs[j]).value
    decreases |docs| - position
  {
    LoadFromStep(tools, idx, path, docs, position, update);
    var step := LoadDocument(tools, idx, path, position, docs[position], update);
    if step.Ok? {
      LoadDocumentEffect(tools, idx, path, position, docs[position], update);
      if position == j {
        LoadLeavesOtherNames(tools, step.value, path, docs, position + 1, update, ResolvedName(path, j, docs[j]));
      } else {
        LoadedFileIsIndexed(tools, step.value, path, docs, position + 1, update, j);
      }
    }
  }

  /** A document named "random" that loads is indexed under the name
      generated from the path and its position, marked as generated, with
      its document still named "random"; the name is the same on every load
      of that path and position. */
  lemma RandomDocumentIndexed(tools: Tools, idx: Index, path: string, docs: seq<Document>, update: bool, j: nat)
    requires idx.Valid() && j < |docs| && docs[j].name == "random"
    requires LoadFile(tools, idx, path, docs, update).outcome.Done?
    requires forall k :: j < k < |docs| ==> docs[k].name != Naming.RandomName(path, j)
    ensures var r := LoadFile(tools, idx, path, docs, update).index;
      var name := Naming.RandomName(path, j);
      && name in r.entries
      && r.entries[name].randomName
      && r.entries[name].template.name == "random"
      && r.entries[name].path == path
  {
    forall k | j < k < |docs|
      ensures ResolvedName(path, k, docs[k]) != ResolvedName(path, j, docs[j])
    {
      if docs[k].name == "random" {
        Naming.RandomNamesDistinct(path, j, k);
      }
    }
    LoadedFileIsIndexed(tools, idx, path, docs, 0, update, j);
    assert ResolvedName(path, j, docs[j]) == Naming.RandomName(path, j);
  }

  /** One unfolding of `LoadAllFrom`. */
  lemma LoadAllFromStep(tools: Tools, idx: Index, files: seq<SourceFile>, i: nat)
    requires idx.Valid() && i < |files|
    ensures var loaded := LoadFile(tools, idx, files[i].path, files[i].documents, false);
      LoadAllFrom(tools, idx, files, i)
        == if loaded.outcome.Raised? then loaded else LoadAllFrom(tools, loaded.index, files, i + 1)
  {
  }

  /** A name that is indexed, or that a document of the file carries, is
      indexed after the file loads without `update`. */
  lemma NameSurvivesFile(tools: Tools, idx: Index, file: SourceFile, a: nat, name: string)
    requires idx.Valid()
    requires name in idx.entries || (a < |file.documents| && ResolvedName(file.path, a, file.documents[a]) == name)
    requires LoadFile(tools, idx, file.path, file.documents, false).outcome.Done?
    ensures name in LoadFile(tools, idx, file.path, file.documents, false).index.entries
  {
    if name in idx.entries {
      LoadWithoutUpdateKeepsRecords(tools, idx, file.path, file.documents, 0);
    } else {
      LoadedFileNamesIndexed(tools, idx, file.path, file.documents, 0, a);
    }
  }

  /** Two documents with the same explicit name anywhere in the tree make
      `_loads` fail. */
  lemma {:induction false} LoadAllRejectsRepeatedNames(
    tools: Tools, idx: Index, files: seq<SourceFile>, i: nat, f: nat, g: nat, a: nat, b: nat)
    requires idx.Valid() && i <= g < |files| && f < g
    requires a < |files[f].documents| && b < |files[g].documents|
    requires files[f].documents[a].name == files[g].documents[b].name != "random"
    requires i <= f || files[g].documents[b].name in idx.entries
    ensures LoadAllFrom(tools, idx, files, i).outcome.Raised?
    decreases |files| - i
  {
    var name := files[g].documents[b].name;
    var loaded := LoadFile(tools, idx, files[i].path, files[i].documents, false);
    LoadAllFromStep(tools, idx, files, i);
    if i == g {
      assert ResolvedName(files[i].path, b, files[i].documents[b]) == name;
      DuplicateNameStopsLoad(tools, idx, files[i].path, files[i].documents, 0, b);
    } else if loaded.outcome.Done? {
      if name in idx.entries || i == f {
        NameSurvivesFile(tools, idx, files[i], a, name);
      }
      assert i + 1 <= f || name in loaded.index.entries;
      LoadAllRejectsRepeatedNames(tools, loaded.index, files, i + 1, f, g, a, b);
    }
  }

  /** After a load without `update` succeeds, every document's resolved name
      is indexed. */
  lemma {:induction false} LoadedFileNamesIndexed(
    tools: Tools, idx: Index, path: string, docs: seq<Document>, position: nat, j: nat)
    requires idx.Valid() && position <= j < |docs|
    requires LoadFrom(tools, idx, path, docs, position, false).outcome.Done?
    ensures ResolvedName(path, j, docs[j]) in LoadFrom(tools, idx, path, docs, position, false).index.entries
    decreases |docs| - position
  {
    LoadFromStep(tools, idx, path, docs, position, false);
    var step := LoadDocument(tools, idx, path, position, docs[position], false);
    if step.Ok? {
      LoadDocumentEffect(tools, idx, path, position, docs[position], false);
      if position == j {
        LoadWithoutUpdateKeepsRecords(tools, step.value, path, docs, position + 1);
      } else {
        LoadedFileNamesIndexed(tools, step.value, path, docs, position + 1, j);
      }
    }
  }

  /** The converse: when every remaining document passes the layer schema
      and the remaining checks, their resolved names differ, and (without
      `update`) none of them is indexed yet, the load succeeds and indexes
      every one of them as the record it was admitted as. */
  lemma {:induction false} LoadAcceptsAdmittedDocuments(
    tools: Tools, idx: Index, path: string, docs: seq<Document>, position: nat, update: bool)
    requires idx.Valid() && position <= |docs|
    requires forall k :: position <= k < |docs| ==>
      tools.checkTemplate(docs[k]) && Admit(tools, path, k, docs[k]).Ok?
    requires forall k :: position <= k < |docs| && !update ==> ResolvedName(path, k, docs[k]) !in idx.entries
    requires forall i, j :: position <= i < j < |docs| ==> ResolvedName(path, i, docs[i]) != ResolvedName(path, j, docs[j])
    ensures var r := LoadFrom(tools, idx, path, docs, position, update);
      && r.outcome == Done
      && forall k :: position <= k < |docs| ==>
           ResolvedName(path, k, docs[k]) in r.index.entries
           && r.index.entries[ResolvedName(path, k, docs[k])] == Admit(tools, path, k, docs[k]).value
    decreases |docs| - position
  {
    if position < |docs| {
      LoadFromStep(tools, idx, path, docs, position, update);
      var name := ResolvedName(path, position, docs[position]);
      var step := LoadDocument(tools, idx, path, position, docs[position], update);
      assert step == Ok(idx.Put(name, Admit(tools, path, position, docs[position]).value));
      LoadAcceptsAdmittedDocuments(tools, step.value, path, docs, position + 1, update);
      LoadLeavesOtherNames(tools, step.value, path, docs, position + 1, update, name);
    }
  }

  // ---------------------------------------------------------------------
  // Queries

  /** The criteria of `find`: a kind of "" and an absent category impose
      nothing, and empty tag and meta criteria are skipped. */
  datatype Query = Query(kind: string, category: Option<string>, tags: seq<string>, meta: map<string, Value>)

  predicate Matches(tools: Tools, q: Query, r: Record) {
    && (q.kind == "" || q.kind == r.kind)
    && (q.category.None? || q.category.value == r.category)
    && (|q.meta| == 0 || tools.isObjLookingFor(r.meta, q.meta))
    && (|q.tags| == 0 || tools.isArrayLookingFor(r.tags, q.tags))
  }

  function Select(tools: Tools, q: Query, rs: seq<Record>): seq<Record> {
    if rs == [] then []
    else (if Matches(tools, q, rs[0]) then [rs[0]] else []) + Select(tools, q, rs[1..])
  }

  /** `find` returns exactly the records that meet every criterion, in
      iteration order. */
  lemma {:induction false} SelectExactly(tools: Tools, q: Query, rs: seq<Record>)
    ensures forall r :: r in Select(tools, q, rs) <==> r in rs && Matches(tools, q, r)
    ensures IsSubsequence(Select(tools, q, rs), rs)
  {
    if rs != [] {
      SelectExactly(tools, q, rs[1..]);
      assert rs == [rs[0]] + rs[1..];
      var s := Select(tools, q, rs);
      if Matches(tools, q, rs[0]) {
        assert s[0] == rs[0] && s[1..] == Select(tools, q, rs[1..]);
      } else {
        assert s == Select(tools, q, rs[1..]);
      }
    }
  }

  /** Selecting from a list extended by one record extends the selection by
      that record exactly when it matches. */
  lemma {:induction false} SelectAppend(tools: Tools, q: Query, rs: seq<Record>, r: Record)
    ensures Select(tools, q, rs + [r]) == Select(tools, q, rs) + (if Matches(tools, q, r) then [r] else [])
  {
    if rs != [] {
      assert (rs + [r])[1..] == rs[1..] + [r];
      SelectAppend(tools, q, rs[1..], r);
    } else {
      assert Select(tools, q, [r][1..]) == [];
    }
  }

  // ---------------------------------------------------------------------
  // The path helper

  /** `os.path.isabs` on POSIX. */
  predicate IsAbsolute(p: string) {
    |p| > 0 && p[0] == '/'
  }

  /** The length of `p` up to and including its last '/', 0 without one. */
  function AfterLastSlash(p: string): (i: nat)
    ensures i <= |p|
    ensures i > 0 ==> p[i - 1] == '/'
    ensures forall k :: i <= k < |p| ==> p[k] != '/'
  {
    if p == [] then 0
    else if p[|p| - 1] == '/' then |p|
    else AfterLastSlash(p[..|p| - 1])
  }

  function StripTrailingSlashes(s: string): (r: string)
    ensures |r| <= |s| && r == s[..|r|]
    ensures r == [] || r[|r| - 1] != '/'
    ensures forall k :: |r| <= k < |s| ==> s[k] == '/'
  {
    if s != [] && s[|s| - 1] == '/' then StripTrailingSlashes(s[..|s| - 1]) else s
  }

  predicate AllSlashes(s: string) {
    forall k :: 0 <= k < |s| ==> s[k] == '/'
  }

  /** `os.path.dirname` on POSIX: everything before the last '/', with
      trailing slashes removed unless that leaves nothing but the root. */
  function Dirname(p: string): string {
    var head := p[..AfterLastSlash(p)];
    if head != [] && !AllSlashes(head) then StripTrailingSlashes(head) else head
  }

  /** The directory of a path is a prefix of it; what follows is a run of
      slashes and then the final component, which has none; and the
      directory ends in '/' only when it is the root itself. */
  lemma DirnameShape(p: string)
    ensures var d := Dirname(p);
      && |d| <= |p| && d == p[..|d|]
      && (forall k, m :: |d| <= k < m < |p| && p[k] != '/' ==> p[m] != '/')
      && (d != [] && d[|d| - 1] == '/' ==> AllSlashes(d))
      && |d| <= AfterLastSlash(p) && AllSlashes(p[|d|..AfterLastSlash(p)])
      && (AllSlashes(p[..AfterLastSlash(p)]) ==> |d| == AfterLastSlash(p))
      && (d == [] <==> '/' !in p)
  {
  }

  /** The body of `get_abspath_in_template` once the name is known: an
      absolute path is returned as it is; otherwise one leading "./" is
      dropped and the rest is put after the directory of the template file. */
  function ResolvePath(templatePath: string, path: string): string {
    if IsAbsolute(path) then path
    else
      var rest := if |path| >= 2 && path[..2] == "./" then path[2..] else path;
      Dirname(templatePath) + "/" + rest
  }

  /** An absolute path is kept as it is. A relative one resolves inside the
      template's directory and keeps its own text, less one leading "./",
      after the separator; a template file given without any directory part
      makes every relative path resolve under the root "/". */
  lemma ResolvePathShape(templatePath: string, path: string)
    ensures var r := ResolvePath(templatePath, path);
      var d := Dirname(templatePath);
      && (IsAbsolute(path) ==> r == path)
      && (!IsAbsolute(path) ==>
            && r[..|d|] == d && r[|d|] == '/'
            && r[|d| + 1..] == (if |path| >= 2 && path[..2] == "./" then path[2..] else path)
            && (AfterLastSlash(templatePath) == 0 ==> IsAbsolute(r)))
  {
    var r := ResolvePath(templatePath, path);
    var d := Dirname(templatePath);
    if !IsAbsolute(path) && |path| >= 2 && path[..2] == "./" {
      assert path == path[..2] + path[2..];
    }
    if AfterLastSlash(templatePath) == 0 {
      assert d == [];
    }
  }

  // ---------------------------------------------------------------------
  // Kind registry and item cache

  /** `_is_load_once` of a registered kind: the truth of its `load_once`
      option, false when absent. */
  predicate LoadOnce(info: KindInfo) {
    Truthy(GetOr(info.options, "load_once", Bool(false)))
  }

  /** `_is_load_separately` of a registered kind. */
  predicate LoadSeparately(info: KindInfo) {
    Truthy(GetOr(info.options, "load_separately", Bool(false)))
  }

  /** `is_loaded` */
  predicate IsLoaded(items: Items, kind: string, name: string) {
    kind in items && name in items[kind]
  }

  /** `_make_kind_info`, as registered by `_register`. */
  function MakeKindInfo(s: KindSetting): KindInfo {
    KindInfo(s.kind, s.worker, s.parser, if s.options.Some? then s.options.value else map[])
  }

  /** The kind table after registering the settings in order. */
  function Registered(kinds: map<string, KindInfo>, settings: seq<KindSetting>): map<string, KindInfo>
    decreases |settings|
  {
    if settings == [] then kinds
    else Registered(kinds[settings[0].kind := MakeKindInfo(settings[0])], settings[1..])
  }

  /** Registering the same kind twice keeps the later registration whole:
      the entry of a kind is built from the last setting for it alone. */
  lemma {:induction false} LaterRegistrationWins(kinds: map<string, KindInfo>, settings: seq<KindSetting>, j: nat)
    requires j < |settings|
    requires forall k :: j < k < |settings| ==> settings[k].kind != settings[j].kind
    ensures settings[j].kind in Registered(kinds, settings)
    ensures Registered(kinds, settings)[settings[j].kind] == MakeKindInfo(settings[j])
    decreases |settings|
  {
    if j == 0 {
      UnregisteredKindsKeep(kinds[settings[0].kind := MakeKindInfo(settings[0])], settings[1..], settings[0].kind);
    } else {
      LaterRegistrationWins(kinds[settings[0].kind := MakeKindInfo(settings[0])], settings[1..], j - 1);
    }
  }

  /** Kinds no setting mentions keep their entries. */
  lemma {:induction false} UnregisteredKindsKeep(kinds: map<string, KindInfo>, settings: seq<KindSetting>, kind: string)
    requires forall k :: 0 <= k < |settings| ==> settings[k].kind != kind
    ensures kind in Registered(kinds, settings) <==> kind in kinds
    ensures kind in kinds ==> Registered(kinds, settings)[kind] == kinds[kind]
    decreases |settings|
  {
    if settings != [] {
      UnregisteredKindsKeep(kinds[settings[0].kind := MakeKindInfo(settings[0])], settings[1..], kind);
    }
  }

  /** `_load_item(kind, name)`: a KeyError for an unregistered kind; no
      change when the kind is load-once and the item is cached (the cached
      entry is a non-empty dictionary, so it is always truthy), nor when the
      kind has no parser; otherwise the name must be indexed and the parsed
      value is cached under (kind, name). */
  function CacheItem(idx: Index, kinds: map<string, KindInfo>, items: Items, kind: string, name: string): Result<Items> {
    if kind !in kinds then Err(KeyMissing(kind))
    else if IsLoaded(items, kind, name) && LoadOnce(kinds[kind]) then Ok(items)
    else if kinds[kind].parser.None? then Ok(items)
    else if name !in idx.entries then Err(NameNotFound(name))
    else
      var inner := if kind in items then items[kind] else map[];
      Ok(items[kind := inner[name := Item(kind, name, kinds[kind].parser.value(name))]])
  }

  /** What `_load_item` does to the cache: it fails only for an unregistered
      kind or (when it has to parse) an unknown name; when it succeeds it
      either leaves the cache alone or stores the parsed value under
      (kind, name), and every other entry stays as it was. */
  lemma CacheItemEffect(idx: Index, kinds: map<string, KindInfo>, items: Items, kind: string, name: string)
    ensures var r := CacheItem(idx, kinds, items, kind, name);
      && (r.Err? <==>
            (|| kind !in kinds
             || (!(IsLoaded(items, kind, name) && LoadOnce(kinds[kind]))
                 && kinds[kind].parser.Some? && name !in idx.entries)))
      && (r.Ok? && IsLoaded(items, kind, name) && LoadOnce(kinds[kind]) ==> r.value == items)
      && (r.Ok? && kinds[kind].parser.None? ==> r.value == items)
      && (r.Ok? && !(IsLoaded(items, kind, name) && LoadOnce(kinds[kind])) && kinds[kind].parser.Some? ==>
            && IsLoaded(r.value, kind, name)
            && r.value[kind][name] == Item(kind, name, kinds[kind].parser.value(name)))
      && (r.Ok? ==> forall k, n :: (k, n) != (kind, name) ==>
            (IsLoaded(r.value, k, n) <==> IsLoaded(items, k, n))
            && (IsLoaded(items, k, n) ==> r.value[k][n] == items[k][n]))
  {
  }

  /** `_load_items` from the `k`-th indexed record on: records of
      load-separately kinds are skipped, the others are cached, and the
      first failure stops the pass. */
  function CacheFrom(idx: Index, kinds: map<string, KindInfo>, items: Items, k: nat): Cached
    requires idx.Valid() && k <= |idx.order|
    decreases |idx.order| - k
  {
    if k == |idx.order| then Cached(Done, items)
    else
      var piece := idx.entries[idx.order[k]];
      if piece.kind !in kinds then Cached(Raised(KeyMissing(piece.kind)), items)
      else if LoadSeparately(kinds[piece.kind]) then CacheFrom(idx, kinds, items, k + 1)
      else match CacheItem(idx, kinds, items, piece.kind, piece.name)
        case Err(e) => Cached(Raised(e), items)
        case Ok(next) => CacheFrom(idx, kinds, next, k + 1)
  }

  /** `_load_items` never touches the cache of a load-separately kind. */
  lemma {:induction false} CacheSkipsSeparateKinds(idx: Index, kinds: map<string, KindInfo>, items: Items, k: nat, kind: string)
    requires idx.Valid() && k <= |idx.order|
    requires kind in kinds && LoadSeparately(kinds[kind])
    ensures var r := CacheFrom(idx, kinds, items, k);
      (kind in r.items <==> kind in items) && (kind in items ==> r.items[kind] == items[kind])
    decreases |idx.order| - k
  {
    if k < |idx.order| {
      var piece := idx.entries[idx.order[k]];
      if piece.kind in kinds && !LoadSeparately(kinds[piece.kind]) {
        match CacheItem(idx, kinds, items, piece.kind, piece.name)
        case Err(_) =>
        case Ok(next) =>
          CacheSkipsSeparateKinds(idx, kinds, next, k + 1, kind);
      } else {
        CacheSkipsSeparateKinds(idx, kinds, items, k + 1, kind);
      }
    }
  }

  /** Over an admitted index, `_load_items` fails exactly when some record
      from the `k`-th on has a kind that was never registered. */
  lemma {:induction false} CacheFailsOnlyForUnregisteredKinds(idx: Index, kinds: map<string, KindInfo>, items: Items, k: nat)
    requires Admitted(idx) && k <= |idx.order|
    ensures CacheFrom(idx, kinds, items, k).outcome.Raised?
        <==> exists m :: k <= m < |idx.order| && idx.entries[idx.order[m]].kind !in kinds
    decreases |idx.order| - k
  {
    if k < |idx.order| {
      var piece := idx.entries[idx.order[k]];
      if piece.kind in kinds && !LoadSeparately(kinds[piece.kind]) {
        assert piece.name == idx.order[k];
        var next := CacheItem(idx, kinds, items, piece.kind, piece.name).value;
        CacheFailsOnlyForUnregisteredKinds(idx, kinds, next, k + 1);
      } else if piece.kind in kinds {
        CacheFailsOnlyForUnregisteredKinds(idx, kinds, items, k + 1);
      }
    }
  }

  /** A pass from the `k`-th record on touches only the names at positions
      `k` and later: an entry under any other name is cached exactly when it
      was, with the value it had, however the pass ends. */
  lemma {:induction false} CacheKeepsOtherNames(
    idx: Index, kinds: map<string, KindInfo>, items: Items, k: nat, kind: string, name: string)
    requires Admitted(idx) && k <= |idx.order|
    requires forall m :: k <= m < |idx.order| ==> idx.order[m] != name
    ensures var r := CacheFrom(idx, kinds, items, k).items;
      && (IsLoaded(r, kind, name) <==> IsLoaded(items, kind, name))
      && (IsLoaded(items, kind, name) ==> r[kind][name] == items[kind][name])
    decreases |idx.order| - k
  {
    if k < |idx.order| {
      var piece := idx.entries[idx.order[k]];
      assert Admissible(idx.order[k], piece);
      if piece.kind in kinds && !LoadSeparately(kinds[piece.kind]) {
        CacheItemEffect(idx, kinds, items, piece.kind, piece.name);
        match CacheItem(idx, kinds, items, piece.kind, piece.name)
        case Err(_) =>
        case Ok(next) =>
          CacheKeepsOtherNames(idx, kinds, next, k + 1, kind, name);
      } else {
        CacheKeepsOtherNames(idx, kinds, items, k + 1, kind, name);
      }
    }
  }

  /** After a pass that succeeds, every record from the `k`-th on whose kind
      is loaded eagerly and has a parser is cached, and what was cached
      stays. */
  lemma {:induction false} CacheCoversEagerKinds(idx: Index, kinds: map<string, KindInfo>, items: Items, k: nat)
    requires Admitted(idx) && k <= |idx.order|
    requires CacheFrom(idx, kinds, items, k).outcome.Done?
    ensures var r := CacheFrom(idx, kinds, items, k).items;
      && (forall kind, name :: IsLoaded(items, kind, name) ==> IsLoaded(r, kind, name))
      && (forall m :: k <= m < |idx.order| ==>
            var piece := idx.entries[idx.order[m]];
            piece.kind in kinds && !LoadSeparately(kinds[piece.kind]) && kinds[piece.kind].parser.Some?
            ==> IsLoaded(r, piece.kind, piece.name))
    decreases |idx.order| - k
  {
    if k < |idx.order| {
      var piece := idx.entries[idx.order[k]];
      if !LoadSeparately(kinds[piece.kind]) {
        CacheItemEffect(idx, kinds, items, piece.kind, piece.name);
        var next := CacheItem(idx, kinds, items, piece.kind, piece.name).value;
        CacheCoversEagerKinds(idx, kinds, next, k + 1);
      } else {
        CacheCoversEagerKinds(idx, kinds, items, k + 1);
      }
    }
  }

  /** After a pass that succeeds, the entry of every record from the `k`-th
      on whose kind is loaded eagerly and has a parser holds the parser's
      value for its name, unless a load-once entry was already there. */
  lemma {:induction false} CacheStoresParsedItems(idx: Index, kinds: map<string, KindInfo>, items: Items, k: nat)
    requires Admitted(idx) && k <= |idx.order|
    requires CacheFrom(idx, kinds, items, k).outcome.Done?
    ensures var r := CacheFrom(idx, kinds, items, k).items;
      forall m :: k <= m < |idx.order| ==>
        var piece := idx.entries[idx.order[m]];
        (&& piece.kind in kinds && !LoadSeparately(kinds[piece.kind]) && kinds[piece.kind].parser.Some?
         && !(LoadOnce(kinds[piece.kind]) && IsLoaded(items, piece.kind, piece.name)))
        ==> IsLoaded(r, piece.kind, piece.name)
            && r[piece.kind][piece.name] == Item(piece.kind, piece.name, kinds[piece.kind].parser.value(piece.name))
    decreases |idx.order| - k
  {
    if k < |idx.order| {
      var piece := idx.entries[idx.order[k]];
      if !LoadSeparately(kinds[piece.kind]) {
        CacheItemEffect(idx, kinds, items, piece.kind, piece.name);
        var next := CacheItem(idx, kinds, items, piece.kind, piece.name).value;
        CacheStoresParsedItems(idx, kinds, next, k + 1);
        if kinds[piece.kind].parser.Some? && !(LoadOnce(kinds[piece.kind]) && IsLoaded(items, piece.kind, piece.name)) {
          assert Admissible(idx.order[k], piece);
          CacheKeepsOtherNames(idx, kinds, next, k + 1, piece.kind, piece.name);
        }
        forall m | k < m < |idx.order|
          ensures IsLoaded(next, idx.entries[idx.order[m]].kind, idx.entries[idx.order[m]].name)
              <==> IsLoaded(items, idx.entries[idx.order[m]].kind, idx.entries[idx.order[m]].name)
        {
          assert Admissible(idx.order[k], piece);
          assert Admissible(idx.order[m], idx.entries[idx.order[m]]);
        }
      } else {
        CacheStoresParsedItems(idx, kinds, items, k + 1);
      }
    }
  }

  /** After a pass that succeeds, every record from the `k`-th on whose kind
      is loaded eagerly and has a parser is cached, with the parser's value
      for its name unless a load-once entry was already there; what was cached
      stays, and entries under names outside the pass keep their values. */
  lemma CacheLoadsEagerKinds(idx: Index, kinds: map<string, KindInfo>, items: Items, k: nat)
    requires Admitted(idx) && k <= |idx.order|
    requires CacheFrom(idx, kinds, items, k).outcome.Done?
    ensures var r := CacheFrom(idx, kinds, items, k).items;
      && (forall kind, name :: IsLoaded(items, kind, name) ==> IsLoaded(r, kind, name))
      && (forall m :: k <= m < |idx.order| ==>
            var piece := idx.entries[idx.order[m]];
            piece.kind in kinds && !LoadSeparately(kinds[piece.kind]) && kinds[piece.kind].parser.Some?
            ==> IsLoaded(r, piece.kind, piece.name))
      && (forall m :: k <= m < |idx.order| ==>
            var piece := idx.entries[idx.order[m]];
            (&& piece.kind in kinds && !LoadSeparately(kinds[piece.kind]) && kinds[piece.kind].parser.Some?
             && !(LoadOnce(kinds[piece.kind]) && IsLoaded(items, piece.kind, piece.name)))
            ==> r[piece.kind][piece.name] == Item(piece.kind, piece.name, kinds[piece.kind].parser.value(piece.name)))
      && (forall kind, name :: IsLoaded(items, kind, name) && name !in idx.order[k..] ==> r[kind][name] == items[kind][name])
  {
    var r := CacheFrom(idx, kinds, items, k).items;
    CacheCoversEagerKinds(idx, kinds, items, k);
    CacheStoresParsedItems(idx, kinds, items, k);
    forall kind, name | IsLoaded(items, kind, name) && name !in idx.order[k..]
      ensures IsLoaded(r, kind, name) && r[kind][name] == items[kind][name]
    {
      assert forall m :: k <= m < |idx.order| ==> idx.order[m] == idx.order[k..][m - k];
      CacheKeepsOtherNames(idx, kinds, items, k, kind, name);
    }
  }



  /** The remainder of `process_by_kind` once the item is cached: the
      arguments gain the template's name and are validated against the
      kind's process schema, and the kind's worker gets the result. */
  function Process(tools: Tools, kinds: map<string, KindInfo>, kind: string, name: string, args: map<string, Value>): (r: Result<Value>)
    ensures r.Ok? ==>
      && kind in kinds && kinds[kind].worker.Some? && kind in tools.processSchemas
      && tools.validate(Dict(args["template_name" := Str(name)]), tools.processSchemas[kind]).Some?
      && r.value == kinds[kind].worker.value(tools.validate(Dict(args["template_name" := Str(name)]), tools.processSchemas[kind]).value)
    ensures kind in kinds && kinds[kind].worker.None? ==> r.Err?
    ensures r.Ok? <==>
      && kind in tools.processSchemas
      && tools.validate(Dict(args["template_name" := Str(name)]), tools.processSchemas[kind]).Some?
      && kind in kinds && kinds[kind].worker.Some?
    ensures kind in tools.processSchemas && tools.validate(Dict(args["template_name" := Str(name)]), tools.processSchemas[kind]).None?
      ==> r == Err(SchemaViolation)
    ensures (&& kind in tools.processSchemas
             && tools.validate(Dict(args["template_name" := Str(name)]), tools.processSchemas[kind]).Some?
             && kind in kinds && kinds[kind].worker.None?)
      ==> r == Err(NoWorker(name))
  {
    if kind !in tools.processSchemas then Err(KeyMissing(kind))
    else match tools.validate(Dict(args["template_name" := Str(name)]), tools.processSchemas[kind])
      case None => Err(SchemaViolation)
      case Some(validated) =>
        if kind !in kinds then Err(KeyMissing(kind))
        else if kinds[kind].worker.None? then Err(NoWorker(name))
        else Ok(kinds[kind].worker.value(validated))
  }

  // ---------------------------------------------------------------------
  // The registry object

  class Template {
    const tools: Tools
    /** `self.templates`: name to record, in insertion order. */
    var templates: Index
    /** `self.all_kind_info` */
    var allKindInfo: map<string, KindInfo>
    /** `self._all_items` */
    var allItems: Items

    ghost predicate Valid()
      reads this`templates
    {
      Admitted(templates)
    }

    constructor(tools: Tools)
      ensures Valid()
      ensures this.tools == tools
      ensures templates == EmptyIndex && allKindInfo == map[] && allItems == map[]
    {
      this.tools := tools;
      templates := EmptyIndex;
      allKindInfo := map[];
      allItems := map[];
    }

    /** The checks of `load` that follow the duplicate-name check, and the
        record built from a document that passes them. */
    method AdmitDocument(path: string, position: nat, doc: Document, name: string, randomName: bool)
      returns (r: Result<Record>)
      requires name == ResolvedName(path, position, doc) && randomName == (doc.name == "random")
      ensures r == Admit(tools, path, position, doc)
    {
      if doc.kind == "" {
        return Err(EmptyKind);
      }
      if name == "" {
        return Err(EmptyName);
      }
      if doc.category == "" {
        return Err(EmptyCategory);
      }
      if !doc.meta.Dict? {
        return Err(MetaNotDict);
      }
      if doc.kind !in tools.templateSchemas {
        return Err(KeyMissing(doc.kind));
      }
      var spec := tools.validate(doc.spec, tools.templateSchemas[doc.kind]);
      if spec.None? {
        return Err(SchemaViolation);
      }
      return Ok(Record(doc.kind, name, doc.category, doc.tags, doc.(spec := spec.value), path, doc.meta, randomName));
    }

    /** One iteration of `load`: the layer schema, the generated name, the
        duplicate-name check (skipped by an update), the remaining checks
        and the new index. */
    method LoadDocumentAt(path: string, position: nat, doc: Document, update: bool) returns (r: Result<Index>)
      requires Valid()
      ensures r == LoadDocument(tools, templates, path, position, doc, update)
    {
      if !tools.checkTemplate(doc) {
        return Err(SchemaViolation);
      }
      var name := doc.name;
      var randomName := false;
      if name == "random" {
        name := Naming.RandomName(path, position);
        randomName := true;
      }
      if name in templates.entries && !update {
        return Err(NameExists(name));
      }
      var admitted := AdmitDocument(path, position, doc, name, randomName);
      if admitted.Err? {
        return Err(admitted.error);
      }
      return Ok(templates.Put(name, admitted.value));
    }

    /** `load`: index the documents of one file in order, stopping at the
        first that fails. */
    method Load(path: string, docs: seq<Document>, update: bool) returns (outcome: Outcome)
      requires Valid()
      modifies this`templates
      ensures Valid()
      ensures Loaded(outcome, templates) == LoadFile(tools, old(templates), path, docs, update)
    {
      var position := 0;
      while position < |docs|
        invariant position <= |docs|
        invariant Valid()
        invariant LoadFile(tools, old(templates), path, docs, update) == LoadFrom(tools, templates, path, docs, position, update)
      {
        LoadFromStep(tools, templates, path, docs, position, update);
        var step := LoadDocumentAt(path, position, docs[position], update);
        if step.Err? {
          return Raised(step.error);
        }
        LoadDocumentEffect(tools, templates, path, position, docs[position], update);
        templates := step.value;
        position := position + 1;
      }
      outcome := Done;
    }

    /** `_loads`: start from an empty index and load every file the
        directory walk found, without `update`. */
    method Loads(files: seq<SourceFile>) returns (outcome: Outcome)
      modifies this`templates
      ensures Valid()
      ensures Loaded(outcome, templates) == LoadAll(tools, files)
    {
      templates := EmptyIndex;
      var i := 0;
      while i < |files|
        invariant i <= |files|
        invariant Valid()
        invariant LoadAll(tools, files) == LoadAllFrom(tools, templates, files, i)
      {
        outcome := Load(files[i].path, files[i].documents, false);
        if outcome.Raised? {
          return;
        }
        i := i + 1;
      }
      outcome := Done;
    }

    /** `update`: reload, with `update`, the whole file the named template
        came from; `files` stands for the file system. */
    method Update(name: string, files: map<string, seq<Document>>) returns (outcome: Outcome)
      requires Valid()
      modifies this`templates
      ensures Valid()
      ensures name !in old(templates.entries) ==> outcome == Raised(NameNotFound(name)) && templates == old(templates)
      ensures name in old(templates.entries) ==>
        var path := old(templates.entries[name].path);
        if path in files then Loaded(outcome, templates) == LoadFile(tools, old(templates), path, files[path], true)
        else outcome == Raised(Unreadable(path)) && templates == old(templates)
    {
      outcome := ValidExistTemplate(name);
      if outcome.Raised? {
        return;
      }
      var path := templates.entries[name].path;
      if path !in files {
        return Raised(Unreadable(path));
      }
      outcome := Load(path, files[path], true);
    }

    /** `_register` */
    method Register(setting: KindSetting)
      modifies this`allKindInfo
      ensures allKindInfo == old(allKindInfo)[setting.kind := MakeKindInfo(setting)]
    {
      allKindInfo := allKindInfo[setting.kind := MakeKindInfo(setting)];
    }

    /** `init`: load the tree, register the kinds in order and, when any were
        given, cache the items of the eagerly loaded kinds. */
    method Init(files: seq<SourceFile>, settings: seq<KindSetting>) returns (outcome: Outcome)
      modifies this`templates, this`allKindInfo, this`allItems
      ensures Valid()
      ensures var loaded := LoadAll(tools, files);
        && templates == loaded.index
        && (loaded.outcome.Raised? ==>
              outcome == loaded.outcome && allKindInfo == old(allKindInfo) && allItems == old(allItems))
        && (loaded.outcome.Done? ==> allKindInfo == Registered(old(allKindInfo), settings))
        && (loaded.outcome.Done? && settings == [] ==> outcome == Done && allItems == old(allItems))
        && (loaded.outcome.Done? && settings != [] ==>
              Cached(outcome, allItems) == CacheFrom(templates, allKindInfo, old(allItems), 0))
    {
      outcome := Loads(files);
      if outcome.Raised? {
        return;
      }
      var i := 0;
      while i < |settings|
        invariant i <= |settings|
        invariant Valid() && templates == LoadAll(tools, files).index && allItems == old(allItems)
        invariant Registered(old(allKindInfo), settings) == Registered(allKindInfo, settings[i..])
      {
        assert settings[i..][1..] == settings[i + 1..];
        Register(settings[i]);
        i := i + 1;
      }
      if |settings| > 0 {
        outcome := LoadItems();
      }
    }

    /** `valid_exist_template` */
    function ValidExistTemplate(name: string): (r: Outcome)
      reads this
      ensures r.Done? <==> name in templates.entries
      ensures r.Raised? ==> r.error == NameNotFound(name)
    {
      if name in templates.entries then Done else Raised(NameNotFound(name))
    }

    /** `find_by_name`: the record indexed under the name, which carries
        that name. */
    function FindByName(name: string): (r: Result<Record>)
      reads this
      ensures r.Ok? <==> name in templates.entries
      ensures r.Ok? ==> r.value == templates.entries[name]
      ensures r.Ok? && Admitted(templates) ==> r.value.name == name
      ensures r.Err? ==> r.error == NameNotFound(name)
    {
      if name in templates.entries then Ok(templates.entries[name]) else Err(NameNotFound(name))
    }

    /** `get`: a plain lookup, so an unknown name is a KeyError rather than
        the registry's own error. */
    function Get(name: string): (r: Result<Document>)
      reads this
      ensures r.Ok? <==> name in templates.entries
      ensures r.Ok? ==> r.value == templates.entries[name].template
      ensures r.Err? ==> r.error == KeyMissing(name)
    {
      if name in templates.entries then Ok(templates.entries[name].template) else Err(KeyMissing(name))
    }

    /** `get_spec`: the spec as the kind's template schema returned it. */
    function GetSpec(name: string): (r: Result<Value>)
      reads this
      ensures r.Ok? <==> name in templates.entries
      ensures r.Ok? ==> r.value == templates.entries[name].template.spec
      ensures r.Err? ==> r.error == NameNotFound(name)
    {
      if name in templates.entries then Ok(templates.entries[name].template.spec) else Err(NameNotFound(name))
    }

    /** `get_kind`: read from the stored document, it is the record's
        non-empty kind. */
    function GetKind(name: string): (r: Result<string>)
      reads this
      ensures r.Ok? <==> name in templates.entries
      ensures r.Ok? && Admitted(templates) ==> r.value == templates.entries[name].kind && r.value != ""
      ensures r.Err? ==> r.error == NameNotFound(name)
    {
      if name in templates.entries then Ok(templates.entries[name].template.kind) else Err(NameNotFound(name))
    }

    /** `get_abspath_in_template` */
    function GetAbspathInTemplate(templateName: string, path: string): (r: Result<string>)
      reads this
      ensures r.Ok? <==> templateName in templates.entries
      ensures r.Ok? ==> r.value == ResolvePath(templates.entries[templateName].path, path)
      ensures r.Err? ==> r.error == NameNotFound(templateName)
    {
      if templateName !in templates.entries then Err(NameNotFound(templateName))
      else Ok(ResolvePath(templates.entries[templateName].path, path))
    }

    /** `find`: the records meeting the query, in iteration order. */
    method Find(q: Query) returns (result: seq<Record>)
      requires Valid()
      ensures result == Select(tools, q, templates.Records())
      ensures forall r :: r in result <==> r in templates.Records() && Matches(tools, q, r)
    {
      var records := templates.Records();
      result := [];
      var k := 0;
      while k < |records|
        invariant k <= |records|
        invariant result == Select(tools, q, records[..k])
      {
        var piece := records[k];
        TakeOneMore(records, k);
        SelectAppend(tools, q, records[..k], piece);
        if (q.kind == "" || q.kind == piece.kind)
          && (q.category.None? || q.category.value == piece.category)
          && (|q.meta| == 0 || tools.isObjLookingFor(piece.meta, q.meta))
          && (|q.tags| == 0 || tools.isArrayLookingFor(piece.tags, q.tags))
        {
          result := result + [piece];
        }
        k := k + 1;
      }
      assert records[..k] == records;
      SelectExactly(tools, q, records);
    }

    /** `get_item`: the cached value; a KeyError names the missing kind or
        name. */
    function GetItem(kind: string, name: string): (r: Result<Value>)
      reads this
      ensures r.Ok? <==> IsLoaded(allItems, kind, name)
      ensures r.Ok? ==> r.value == allItems[kind][name].value
      ensures r.Err? ==> r.error == KeyMissing(if kind in allItems then name else kind)
    {
      if kind !in allItems then Err(KeyMissing(kind))
      else if name !in allItems[kind] then Err(KeyMissing(name))
      else Ok(allItems[kind][name].value)
    }

    /** `get_items`: every cached value of a kind, by name. */
    method GetItems(kind: string) returns (r: Result<map<string, Value>>)
      ensures r.Ok? <==> kind in allItems
      ensures r.Err? ==> r.error == KeyMissing(kind)
      ensures r.Ok? ==> r.value.Keys == allItems[kind].Keys
      ensures r.Ok? ==> forall n :: n in r.value ==> GetItem(kind, n) == Ok(r.value[n])
    {
      if kind !in allItems {
        return Err(KeyMissing(kind));
      }
      var items: map<string, Value> := map[];
      var remaining := allItems[kind].Keys;
      while remaining != {}
        invariant remaining <= allItems[kind].Keys
        invariant items.Keys + remaining == allItems[kind].Keys
        invariant forall n :: n in items ==> GetItem(kind, n) == Ok(items[n])
        decreases remaining
      {
        var name :| name in remaining;
        var value := GetItem(kind, name);
        items := items[name := value.value];
        remaining := remaining - {name};
      }
      r := Ok(items);
    }

    /** `_load_item` */
    method LoadItem(kind: string, name: string) returns (outcome: Outcome)
      modifies this`allItems
      ensures outcome.Raised? ==> allItems == old(allItems)
      ensures CacheItem(templates, allKindInfo, old(allItems), kind, name)
           == (if outcome.Done? then Ok(allItems) else Err(outcome.error))
    {
      if IsLoaded(allItems, kind, name) {
        if kind !in allKindInfo {
          return Raised(KeyMissing(kind));
        }
        if LoadOnce(allKindInfo[kind]) {
          return Done;
        }
      }
      if kind !in allKindInfo {
        return Raised(KeyMissing(kind));
      }
      var info := allKindInfo[kind];
      if info.parser.None? {
        return Done;
      }
      if name !in templates.entries {
        return Raised(NameNotFound(name));
      }
      var value := info.parser.value(name);
      if kind !in allItems {
        allItems := allItems[kind := map[]];
      }
      allItems := allItems[kind := allItems[kind][name := Item(kind, name, value)]];
      assert allItems == old(allItems)[kind :=
        (if kind in old(allItems) then old(allItems)[kind] else map[])[name := Item(kind, name, value)]];
      outcome := Done;
    }

    /** `_load_items`: cache every indexed record of a kind that is not
        loaded separately, in iteration order. */
    method LoadItems() returns (outcome: Outcome)
      requires Valid()
      modifies this`allItems
      ensures Cached(outcome, allItems) == CacheFrom(templates, allKindInfo, old(allItems), 0)
    {
      var k := 0;
      while k < |templates.order|
        invariant k <= |templates.order|
        invariant CacheFrom(templates, allKindInfo, old(allItems), 0) == CacheFrom(templates, allKindInfo, allItems, k)
      {
        var piece := templates.entries[templates.order[k]];
        if piece.kind !in allKindInfo {
          return Raised(KeyMissing(piece.kind));
        }
        if !LoadSeparately(allKindInfo[piece.kind]) {
          outcome := LoadItem(piece.kind, piece.name);
          if outcome.Raised? {
            return;
          }
        }
        k := k + 1;
      }
      outcome := Done;
    }

    /** `load_item`: cache the item of a template under its own kind. */
    method LoadItemByName(name: string) returns (outcome: Outcome)
      modifies this`allItems
      ensures name !in templates.entries ==> outcome == Raised(NameNotFound(name)) && allItems == old(allItems)
      ensures name in templates.entries ==>
        CacheItem(templates, allKindInfo, old(allItems), templates.entries[name].template.kind, name)
          == (if outcome.Done? then Ok(allItems) else Err(outcome.error))
    {
      var kind := GetKind(name);
      if kind.Err? {
        return Raised(kind.error);
      }
      outcome := LoadItem(kind.value, name);
    }

    /** `process_by_kind`: cache the item, then hand the validated arguments
        to the kind's worker. */
    method ProcessByKind(kind: string, name: string, args: map<string, Value>) returns (r: Result<Value>)
      modifies this`allItems
      ensures match CacheItem(templates, allKindInfo, old(allItems), kind, name)
        case Err(e) => r == Err(e) && allItems == old(allItems)
        case Ok(items) => allItems == items && r == Process(tools, allKindInfo, kind, name, args)
    {
      var loaded := LoadItem(kind, name);
      if loaded.Raised? {
        return Err(loaded.error);
      }
      var arguments := Dict(args["template_name" := Str(name)]);
      if kind !in tools.processSchemas {
        return Err(KeyMissing(kind));
      }
      var validated := tools.validate(arguments, tools.processSchemas[kind]);
      if validated.None? {
        return Err(SchemaViolation);
      }
      if kind !in allKindInfo {
        return Err(KeyMissing(kind));
      }
      var worker := allKindInfo[kind].worker;
      if worker.None? {
        return Err(NoWorker(name));
      }
      r := Ok(worker.value(validated.value));
    }
  }
}
