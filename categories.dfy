/**
 * The shape shared by the two `FILE_CATEGORIES` tables of the repository: an
 * ordered list of (category key, extension list) entries that is searched
 * front to back, the first entry whose list contains the extension winning.
 */
module Categories {
  import opened Wrappers

  datatype Category = Category(key: string, exts: seq<string>)

  /** Index of the first entry whose extension list contains `ext`, if any. */
  function FirstMatch(table: seq<Category>, ext: string): (r: Option<nat>)
    ensures r.Some? ==> r.value < |table| && ext in table[r.value].exts
    ensures r.Some? ==> forall j :: 0 <= j < r.value ==> ext !in table[j].exts
    ensures r.None? <==> forall j :: 0 <= j < |table| ==> ext !in table[j].exts
  {
    if |table| == 0 then None
    else if ext in table[0].exts then Some(0)
    else match FirstMatch(table[1..], ext)
      case None => None
      case Some(i) => Some(i + 1)
  }

  /** The `for cat, exts in FILE_CATEGORIES.items(): if ext in exts: ...; break` loop. */
  method Lookup(table: seq<Category>, ext: string) returns (r: Option<nat>)
    ensures r == FirstMatch(table, ext)
  {
    r := None;
    var i := 0;
    while i < |table|
      invariant 0 <= i <= |table|
      invariant forall j :: 0 <= j < i ==> ext !in table[j].exts
    {
      if ext in table[i].exts {
        r := Some(i);
        break;
      }
      i := i + 1;
    }
    FirstMatchUnique(table, ext, r);
  }

  /** `FirstMatch` is the only answer that respects "first entry wins". */
  lemma FirstMatchUnique(table: seq<Category>, ext: string, r: Option<nat>)
    requires r.Some? ==> r.value < |table| && ext in table[r.value].exts
    requires r.Some? ==> forall j :: 0 <= j < r.value ==> ext !in table[j].exts
    requires r.None? ==> forall j :: 0 <= j < |table| ==> ext !in table[j].exts
    ensures r == FirstMatch(table, ext)
  {
  }

  /** `any(ext in exts for exts in table)`. */
  predicate Listed(table: seq<Category>, ext: string) {
    exists j :: 0 <= j < |table| && ext in table[j].exts
  }

  lemma ListedIffMatch(table: seq<Category>, ext: string)
    ensures Listed(table, ext) <==> FirstMatch(table, ext).Some?
  {
  }

  /** No extension appears in two entries, so the order of the entries decides nothing. */
  predicate Disjoint(table: seq<Category>) {
    forall i, j, e :: 0 <= i < j < |table| && e in table[i].exts ==> e !in table[j].exts
  }

  /** In a table without overlaps, any entry that lists `ext` is the first match. */
  lemma DisjointMatch(table: seq<Category>, ext: string, i: nat)
    requires Disjoint(table)
    requires i < |table| && ext in table[i].exts
    ensures FirstMatch(table, ext) == Some(i)
  {
    assert FirstMatch(table, ext).Some?;
  }
}
