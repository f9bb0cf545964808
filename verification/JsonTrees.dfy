/** JSON documents as the services store them: a dictionary keeps its keys in insertion order. */
module JsonTrees {
  import opened Wrappers

  datatype Json =
    | Null
    | Bool(b: bool)
    | Int(n: int)
    | Flt(r: real)
    | Str(s: string)
    | Arr(items: seq<Json>)
    | Obj(fields: seq<Field>)

  datatype Field = Field(name: string, value: Json)

  /** `document.get(name)`, with None for a missing key. */
  function Lookup(fields: seq<Field>, name: string): Option<Json> {
    if fields == [] then None
    else if fields[0].name == name then Some(fields[0].value)
    else Lookup(fields[1..], name)
  }

  ghost predicate HasText(fields: seq<Field>, name: string, text: string) {
    Lookup(fields, name) == Some(Str(text)) && text != ""
  }

  ghost predicate NoText(fields: seq<Field>, name: string) {
    forall text :: !HasText(fields, name, text)
  }

  /** The payload of an action: a dictionary, or the empty one where none is given. */
  ghost predicate HasPayload(fields: seq<Field>, payload: Json) {
    match Lookup(fields, "payload")
    case Some(Obj(given)) => payload == Obj(given)
    case Some(Null) => payload == Obj([])
    case None => payload == Obj([])
    case _ => false
  }

  ghost predicate NoPayload(fields: seq<Field>) {
    forall payload :: !HasPayload(fields, payload)
  }

  lemma {:induction false} NoPayloadExactly(fields: seq<Field>)
    ensures var payload := Lookup(fields, "payload");
            NoPayload(fields) <==> payload.Some? && !payload.value.Null? && !payload.value.Obj?
  {
    match Lookup(fields, "payload")
    case Some(Obj(given)) => assert HasPayload(fields, Obj(given));
    case Some(Null) => assert HasPayload(fields, Obj([]));
    case None => assert HasPayload(fields, Obj([]));
    case _ =>
  }

  lemma {:induction false} LookupAt(fields: seq<Field>, name: string, i: nat)
    requires i < |fields| && fields[i].name == name
    requires forall j | 0 <= j < i :: fields[j].name != name
    ensures Lookup(fields, name) == Some(fields[i].value)
  {
    if i > 0 {
      LookupAt(fields[1..], name, i - 1);
    }
  }

  ghost predicate Named(fields: seq<Field>, names: seq<string>) {
    && |fields| == |names| && (forall i | 0 <= i < |names| :: fields[i].name == names[i])
    && (forall i, j | 0 <= i < j < |names| :: names[i] != names[j])
  }

  /** Under distinct names, each field is found at its own. */
  lemma {:induction false} LookupNamed(fields: seq<Field>, names: seq<string>, i: nat)
    requires Named(fields, names) && i < |names|
    ensures Lookup(fields, names[i]) == Some(fields[i].value)
  {
    LookupAt(fields, names[i], i);
  }

  lemma {:induction false} LookupMissing(fields: seq<Field>, name: string)
    requires forall i | 0 <= i < |fields| :: fields[i].name != name
    ensures Lookup(fields, name) == None
  {
    if fields != [] {
      LookupMissing(fields[1..], name);
    }
  }

  /** A path descends into an array item or into the value of a dictionary field, by position. */
  type Path = seq<nat>

  ghost predicate Resolves(document: Json, path: Path) {
    path == [] ||
    match document
    case Arr(items) => path[0] < |items| && Resolves(items[path[0]], path[1..])
    case Obj(fields) => path[0] < |fields| && Resolves(fields[path[0]].value, path[1..])
    case _ => false
  }

  ghost function At(document: Json, path: Path): Json
    requires Resolves(document, path)
  {
    if path == [] then document
    else
      match document
      case Arr(items) => At(items[path[0]], path[1..])
      case Obj(fields) => At(fields[path[0]].value, path[1..])
  }

  /** Some dictionary, at some depth of the document, has a key that satisfies `bad`. */
  ghost predicate HasKey(document: Json, bad: string -> bool) {
    exists path: Path, i: nat :: KeyAt(document, path, i, bad)
  }

  ghost predicate KeyAt(document: Json, path: Path, i: nat, bad: string -> bool) {
    Resolves(document, path) && At(document, path).Obj? &&
    i < |At(document, path).fields| && bad(At(document, path).fields[i].name)
  }

  lemma {:induction false} KeyInItem(items: seq<Json>, k: nat, bad: string -> bool)
    requires k < |items| && HasKey(items[k], bad)
    ensures HasKey(Arr(items), bad)
  {
    var path, i :| KeyAt(items[k], path, i, bad);
    assert ([k] + path)[1..] == path;
    assert KeyAt(Arr(items), [k] + path, i, bad);
  }

  lemma {:induction false} KeyInField(fields: seq<Field>, k: nat, bad: string -> bool)
    requires k < |fields|
    requires bad(fields[k].name) || HasKey(fields[k].value, bad)
    ensures HasKey(Obj(fields), bad)
  {
    if bad(fields[k].name) {
      assert KeyAt(Obj(fields), [], k, bad);
    } else {
      var path, i :| KeyAt(fields[k].value, path, i, bad);
      assert ([k] + path)[1..] == path;
      assert KeyAt(Obj(fields), [k] + path, i, bad);
    }
  }

  lemma {:induction false} KeyInside(document: Json, bad: string -> bool)
    requires HasKey(document, bad)
    ensures document.Arr? || document.Obj?
    ensures document.Arr? ==> exists k | 0 <= k < |document.items| :: HasKey(document.items[k], bad)
    ensures document.Obj? ==>
      exists k | 0 <= k < |document.fields| :: bad(document.fields[k].name) || HasKey(document.fields[k].value, bad)
  {
    var path, i :| KeyAt(document, path, i, bad);
    if path != [] {
      if document.Arr? {
        assert KeyAt(document.items[path[0]], path[1..], i, bad);
      } else {
        assert KeyAt(document.fields[path[0]].value, path[1..], i, bad);
      }
    }
  }
}
