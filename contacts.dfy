/** Task A4, `a4_contacts` (app.py:87-109): sort the contacts of `contacts.json` by
    `(last_name, first_name)`, a missing name counting as `""`. */
module Contacts {
  import opened Wrappers
  import opened Text
  import opened Paths
  import opened Responses
  import opened Sorting

  /** The sort key `(x.get("last_name", ""), x.get("first_name", ""))`. */
  datatype SortKey = SortKey(last: string, first: string)

  /** Python's `<` on two pairs of strings: by the first component, then by the second. */
  predicate KeyLess(a: SortKey, b: SortKey)
  {
    StrLess(a.last, b.last) || (a.last == b.last && StrLess(a.first, b.first))
  }

  /** The comparison the sort uses orders keys strictly and totally. */
  lemma KeyLessIsStrictTotalOrder()
    ensures IsStrictTotalOrder(KeyLess)
  {
    forall x: SortKey ensures !KeyLess(x, x) {
      StrLessIrreflexive(x.last);
      StrLessIrreflexive(x.first);
    }
    forall x: SortKey, y: SortKey, z: SortKey | KeyLess(x, y) && KeyLess(y, z) ensures KeyLess(x, z) {
      if StrLess(x.last, y.last) && StrLess(y.last, z.last) {
        StrLessTransitive(x.last, y.last, z.last);
      } else if x.last == y.last && y.last == z.last {
        StrLessTransitive(x.first, y.first, z.first);
      }
    }
    forall x: SortKey, y: SortKey | x != y ensures KeyLess(x, y) || KeyLess(y, x) {
      if x.last != y.last {
        StrLessTotal(x.last, y.last);
      } else {
        StrLessTotal(x.first, y.first);
      }
    }
  }

  /** `x.get(field, "")` on an object, when the value found is a string. */
  function NameOf(fields: map<string, Json>, field: string): Option<string>
  {
    if field !in fields then Some("")
    else if fields[field].JStr? then Some(fields[field].s)
    else None
  }

  /** Both names of a contact are strings, or missing. */
  predicate HasStringNames(c: Json)
  {
    c.JObject? && NameOf(c.fields, "last_name").Some? && NameOf(c.fields, "first_name").Some?
  }

  /** The key of a contact; it is only used on contacts with string names. */
  function ContactKey(c: Json): SortKey
  {
    if HasStringNames(c) then SortKey(NameOf(c.fields, "last_name").value, NameOf(c.fields, "first_name").value)
    else SortKey("", "")
  }

  /** The name Python gives the type of a JSON value. */
  function TypeName(j: Json): string
  {
    match j
    case JNull => "NoneType"
    case JBool(_) => "bool"
    case JNum(_) => "int"
    case JStr(_) => "str"
    case JArray(_) => "list"
    case JObject(_) => "dict"
  }

  /** The text of the `AttributeError` that `x.get` raises on a value that is not an object. */
  function NoGetAttribute(j: Json): string
  {
    "'" + TypeName(j) + "' object has no attribute 'get'"
  }

  /** The text the sort fails with when it has to compare a name that is not a string. */
  const UnorderableName := "'<' not supported between instances of a name that is not a string"

  /** The position of the first element that is not an object. */
  function FirstNonObject(items: seq<Json>): (r: Option<nat>)
    ensures r.Some? ==> r.value < |items| && !items[r.value].JObject?
    ensures r.Some? ==> forall i :: 0 <= i < r.value ==> items[i].JObject?
    ensures r.None? <==> forall i :: 0 <= i < |items| ==> items[i].JObject?
  {
    if items == [] then None
    else if !items[0].JObject? then Some(0)
    else
      match FirstNonObject(items[1..])
      case None => None
      case Some(k) => Some(k + 1)
  }

  /** The exception `contacts.sort(key=...)` raises, if any: the key function is applied to every
      element, in order, before any comparison, so the first element that is not an object
      raises; with two elements or more, a name that is not a string cannot be compared. */
  function SortFailure(items: seq<Json>): (r: Option<string>)
    ensures r.None? <==>
      (forall i :: 0 <= i < |items| ==> items[i].JObject?) &&
      (|items| >= 2 ==> forall i :: 0 <= i < |items| ==> HasStringNames(items[i]))
    ensures (exists i :: 0 <= i < |items| && !items[i].JObject?) ==>
      r == Some(NoGetAttribute(items[FirstNonObject(items).value]))
  {
    match FirstNonObject(items)
    case Some(k) => Some(NoGetAttribute(items[k]))
    case None =>
      if |items| >= 2 && exists i :: 0 <= i < |items| && !HasStringNames(items[i]) then Some(UnorderableName)
      else None
  }

  /** `contacts.sort(key=...)` (app.py:102), in place, on a list whose keys are all defined. */
  method SortContacts(contacts: seq<Json>) returns (sorted: seq<Json>)
    ensures sorted == StableSort(contacts, ContactKey, KeyLess)
  {
    var a := new Json[|contacts|](i requires 0 <= i < |contacts| => contacts[i]);
    assert a[..] == contacts;
    SortInPlace(a, ContactKey, KeyLess);
    sorted := a[..];
  }

  /** The sorted list holds the same contacts, ordered by key, and contacts with equal keys keep
      their order. */
  lemma {:induction false} SortedContacts(contacts: seq<Json>, k: SortKey)
    ensures var s := StableSort(contacts, ContactKey, KeyLess);
      && multiset(s) == multiset(contacts)
      && (forall i, j :: 0 <= i < j < |s| ==> !KeyLess(ContactKey(s[j]), ContactKey(s[i])))
      && WithKey(s, ContactKey, k) == WithKey(contacts, ContactKey, k)
  {
    SortPermutes(contacts, ContactKey, KeyLess);
    KeyLessIsStrictTotalOrder();
    SortSorted(contacts, ContactKey, KeyLess);
    SortStable(contacts, ContactKey, KeyLess, k);
  }

  /** Two contacts whose keys are out of order are swapped. */
  lemma {:induction false} SortTwo(x: Json, y: Json)
    requires KeyLess(ContactKey(y), ContactKey(x))
    ensures StableSort([x, y], ContactKey, KeyLess) == [y, x]
  {
    assert [x, y][..1] == [x];
    assert [x][..0] == [];
    assert StableSort([x], ContactKey, KeyLess) == [x];
    assert Insert([x], y, ContactKey, KeyLess) == Insert([], y, ContactKey, KeyLess) + [x];
  }

  /** Z/B before A/A comes out as A/A, Z/B. */
  lemma {:induction false} SortExample(zb: Json, aa: Json)
    requires zb == JObject(map["first_name" := JStr("B"), "last_name" := JStr("Z")])
    requires aa == JObject(map["first_name" := JStr("A"), "last_name" := JStr("A")])
    ensures SortFailure([zb, aa]).None?
    ensures StableSort([zb, aa], ContactKey, KeyLess) == [aa, zb]
  {
    assert HasStringNames(zb) && ContactKey(zb) == SortKey("Z", "B");
    assert HasStringNames(aa) && ContactKey(aa) == SortKey("A", "A");
    assert StrLess("A", "Z");
    SortTwo(zb, aa);
  }

  /** A contact without names sorts as if both were `""`. */
  lemma {:induction false} MissingNamesAreEmpty(c: Json)
    requires c.JObject? && "last_name" !in c.fields && "first_name" !in c.fields
    ensures ContactKey(c) == SortKey("", "")
  {
  }

  /** The file the sorted list is written to, in `DATA_DIR`. */
  const SortedFile := "contacts-sorted.json"

  lemma {:induction false} SortedFileInDataDir(dataDir: Path)
    requires IsNormal(dataDir)
    ensures IsComponent(SortedFile)
    ensures GetAbsPath(dataDir, SortedFile) == dataDir + [SortedFile]
  {
    GetAbsPathOfPlainName(dataDir, SortedFile);
  }

  /** What `a4_contacts` answers and writes. */
  function SortContactsOutcome(dataDir: Path, contacts: Input<Json>): Outcome
  {
    match contacts
    case Missing => Reply(ErrorResponse(404, "File not found."))
    case Unreadable(m) => Reply(FailedResponse(m))
    case Present(document) =>
      if !document.JArray? then Reply(ErrorResponse(400, "Invalid JSON format. Expected a list."))
      else
        match SortFailure(document.items)
        case Some(e) => Reply(FailedResponse(e))
        case None =>
          Outcome(MessageResponse("Contacts sorted successfully."),
            Some(Write(dataDir + [SortedFile], JsonList(StableSort(document.items, ContactKey, KeyLess)))))
  }

  /** The handler writes `contacts-sorted.json` in `DATA_DIR` or nothing, and answers with 200, 400 or 404. */
  lemma {:induction false} SortContactsOutcomeShape(dataDir: Path, contacts: Input<Json>)
    ensures var o := SortContactsOutcome(dataDir, contacts);
      && (o.written.Some? ==> o.written.value.path == dataDir + [SortedFile])
      && (o.response.status == 200 || o.response.status == 400 || o.response.status == 404)
  {
  }

  /** The whole handler: 404 without the input, 400 for a document that is not a list, the
      exception's text with 400 when loading or sorting fails, else the sorted list written to
      `contacts-sorted.json`. */
  method SortContactsTask(dataDir: Path, contacts: Input<Json>) returns (o: Outcome)
    requires IsNormal(dataDir)
    ensures o == SortContactsOutcome(dataDir, contacts)
    ensures contacts.Missing? ==> o == Reply(ErrorResponse(404, "File not found."))
    ensures contacts.Unreadable? ==> o == Reply(FailedResponse(contacts.message))
    ensures contacts.Present? && !contacts.contents.JArray? ==>
      o == Reply(ErrorResponse(400, "Invalid JSON format. Expected a list."))
    ensures contacts.Present? && contacts.contents.JArray? && SortFailure(contacts.contents.items).Some? ==>
      o == Reply(FailedResponse(SortFailure(contacts.contents.items).value))
    ensures contacts.Present? && contacts.contents.JArray? && SortFailure(contacts.contents.items).None? ==>
      o == Outcome(MessageResponse("Contacts sorted successfully."),
        Some(Write(dataDir + [SortedFile], JsonList(StableSort(contacts.contents.items, ContactKey, KeyLess)))))
  {
    match contacts {
      case Missing =>
        return Reply(ErrorResponse(404, "File not found."));
      case Unreadable(m) =>
        return Reply(FailedResponse(m));
      case Present(document) =>
        if !document.JArray? {
          return Reply(ErrorResponse(400, "Invalid JSON format. Expected a list."));
        }
        match SortFailure(document.items) {
          case Some(e) =>
            return Reply(FailedResponse(e));
          case None =>
            var sorted := SortContacts(document.items);
            SortedFileInDataDir(dataDir);
            var output := GetAbsPath(dataDir, SortedFile);
            o := Outcome(MessageResponse("Contacts sorted successfully."), Some(Write(output, JsonList(sorted))));
        }
    }
  }
}
