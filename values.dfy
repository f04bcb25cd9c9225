/** Values shared by the template registry and the scheduler: the parsed
    document values, the template documents and records, the insertion-ordered
    template index, and the errors both components raise. */
module Values {

  datatype Option<T> = None | Some(value: T)

  /** A parsed YAML/JSON value as the loader hands it over. */
  datatype Value =
    | Null
    | Bool(b: bool)
    | Int(i: int)
    | Str(s: string)
    | List(items: seq<Value>)
    | Dict(fields: map<string, Value>)

  /** Python truthiness of a parsed value. */
  predicate Truthy(v: Value) {
    match v
    case Null => false
    case Bool(b) => b
    case Int(i) => i != 0
    case Str(s) => s != ""
    case List(items) => items != []
    case Dict(fields) => fields != map[]
  }

  /** The exceptions the modelled code raises. */
  datatype Error =
    | SchemaViolation            // a schema validator rejected the value
    | NameExists(name: string)   // "name already exists"
    | EmptyKind
    | EmptyName
    | EmptyCategory
    | MetaNotDict
    | NameNotFound(name: string) // "name is not exists in templates"
    | KeyMissing(key: string)    // a KeyError on a dictionary lookup
    | TypeMismatch               // a TypeError (subscripting a non-dict, adding a non-string)
    | NoWorker(name: string)     // "worker is not exsists"
    | InvalidKind(kind: string)
    | InvalidFunctionName(functionName: string)
    | Unreadable(path: string)   // the template file cannot be opened
    | RemoteNotFound             // a client raised ResourceNotFoundException
    | RemoteFailure              // a client raised any other error

  datatype Result<T> = Ok(value: T) | Err(error: Error)

  /** How a statement sequence that returns nothing ended. */
  datatype Outcome = Done | Raised(error: Error)

  /** `v[key]`: a KeyError when the dictionary lacks the key, a TypeError
      when the value is not a dictionary at all. */
  function Lookup(v: Value, key: string): (r: Result<Value>)
    ensures r.Ok? <==> v.Dict? && key in v.fields
    ensures r.Ok? ==> r.value == v.fields[key]
    ensures r.Err? ==> r.error == (if v.Dict? then KeyMissing(key) else TypeMismatch)
  {
    if !v.Dict? then Err(TypeMismatch)
    else if key in v.fields then Ok(v.fields[key])
    else Err(KeyMissing(key))
  }

  /** `d.get(key, default)` on a dictionary. */
  function GetOr(fields: map<string, Value>, key: string, default: Value): Value {
    if key in fields then fields[key] else default
  }

  /** One document of a template file, after YAML parsing. */
  datatype Document = Document(
    kind: string,
    name: string,
    category: string,
    tags: seq<string>,
    meta: Value,
    spec: Value)

  /** The indexed form of a document: the document (with its validated spec)
      plus its provenance. */
  datatype Record = Record(
    kind: string,
    name: string,
    category: string,
    tags: seq<string>,
    template: Document,
    path: string,
    meta: Value,
    randomName: bool)

  /** The template index: a dictionary from name to record that remembers
      the order in which names were first inserted, as a Python dict does. */
  datatype Index = Index(order: seq<string>, entries: map<string, Record>) {

    ghost predicate Valid() {
      && (forall i, j :: 0 <= i < j < |order| ==> order[i] != order[j])
      && (forall n :: n in entries <==> n in order)
    }

    /** `d[name] = r`: a new name goes to the end, an existing one keeps its place. */
    function Put(name: string, r: Record): (idx: Index)
      requires Valid()
      ensures idx.Valid()
      ensures idx.entries == entries[name := r]
      ensures |order| <= |idx.order| && idx.order[..|order|] == order
      ensures name in entries ==> idx.order == order
    {
      if name in entries then Index(order, entries[name := r])
      else Index(order + [name], entries[name := r])
    }

    /** `later` still holds every record of this index, and this index's
        names come first in its iteration order. */
    ghost predicate KeptIn(later: Index) {
      && (forall n :: n in entries ==> n in later.entries && later.entries[n] == entries[n])
      && |order| <= |later.order| && later.order[..|order|] == order
    }

    /** The records in iteration order. */
    function Records(): (rs: seq<Record>)
      requires Valid()
      ensures |rs| == |order|
      ensures forall i :: 0 <= i < |order| ==> rs[i] == entries[order[i]]
    {
      seq(|order|, i requires 0 <= i < |order| => entries[order[i]])
    }
  }

  const EmptyIndex: Index := Index([], map[])

  lemma KeptInTransitive(a: Index, b: Index, c: Index)
    requires a.KeptIn(b) && b.KeptIn(c)
    ensures a.KeptIn(c)
  {
    assert c.order[..|a.order|] == c.order[..|b.order|][..|a.order|];
  }

  lemma TakeOneMore<T>(s: seq<T>, k: nat)
    requires k < |s|
    ensures s[..k + 1] == s[..k] + [s[k]]
  {
  }

  /** `a` is `b` with some elements left out, the rest in their order. */
  predicate IsSubsequence<T(==)>(a: seq<T>, b: seq<T>)
    decreases |b|
  {
    if a == [] then true
    else if b == [] then false
    else (a[0] == b[0] && IsSubsequence(a[1..], b[1..])) || IsSubsequence(a, b[1..])
  }
}
