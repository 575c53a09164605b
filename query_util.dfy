/**
 * util/query.util.ts: `checkSortOrder`, which accepts `asc`/`desc` in any
 * letter case and returns it lower-cased, and `checkModelField`, which asks
 * the Prisma datamodel (given here as a list of models) whether a model has
 * a field of a given name.
 */
module QueryUtil {
  import opened Wrappers

  /** Lower-casing of one character; letters outside A-Z are left alone. */
  function LowerChar(c: char): char {
    if 'A' <= c <= 'Z' then (c as int + 32) as char else c
  }

  /** `toLocaleLowerCase` on ASCII text. */
  function Lower(s: string): (r: string)
    ensures |r| == |s| && forall i :: 0 <= i < |s| ==> r[i] == LowerChar(s[i])
  {
    seq(|s|, i requires 0 <= i < |s| => LowerChar(s[i]))
  }

  lemma LowerIdempotent(s: string)
    ensures Lower(Lower(s)) == Lower(s)
  {
  }

  /** `checkSortOrder(sortOrder)`. */
  function CheckSortOrder(sortOrder: string): (r: Option<string>)
    ensures r.Some? <==> Lower(sortOrder) == "asc" || Lower(sortOrder) == "desc"
    ensures r.Some? ==> r.value == Lower(sortOrder)
  {
    var lowered := Lower(sortOrder);
    if lowered in ["asc", "desc"] then Some(lowered) else None
  }

  /**
   * The result is `asc`, `desc` or nothing; it does not depend on letter case,
   * and a defined result is accepted again unchanged.
   */
  lemma CheckSortOrderProperties(s: string, t: string)
    ensures CheckSortOrder(s).None? || CheckSortOrder(s).value in {"asc", "desc"}
    ensures Lower(s) == Lower(t) ==> CheckSortOrder(s) == CheckSortOrder(t)
    ensures CheckSortOrder(s).Some? ==> CheckSortOrder(CheckSortOrder(s).value) == CheckSortOrder(s)
  {
    LowerIdempotent(s);
  }

  /** Upper- and mixed-case spellings are normalised. */
  lemma CheckSortOrderExamples()
    ensures CheckSortOrder("ASC") == Some("asc")
    ensures CheckSortOrder("Desc") == Some("desc")
    ensures CheckSortOrder("") == None
    ensures CheckSortOrder("ascending") == None
  {
    assert Lower("ASC") == "asc";
    assert Lower("Desc") == "desc";
    assert |Lower("ascending")| == 9;
  }

  /** A model of the Prisma datamodel: its name and its field names. */
  datatype ModelDef = ModelDef(name: string, fields: seq<string>)

  /** `models.find(m => m.name === model)`. */
  function FindModel(models: seq<ModelDef>, name: string): (r: Option<nat>)
    ensures r.None? <==> forall i :: 0 <= i < |models| ==> models[i].name != name
    ensures r.Some? ==>
      && r.value < |models|
      && models[r.value].name == name
      && forall j :: 0 <= j < r.value ==> models[j].name != name
  {
    if models == [] then None
    else if models[0].name == name then Some(0)
    else
      match FindModel(models[1..], name)
      case None => None
      case Some(i) => Some(i + 1)
  }

  /** `checkModelField(model, field)` over the datamodel `models`. */
  function CheckModelField(models: seq<ModelDef>, model: string, field: string): (r: bool)
    ensures (forall i :: 0 <= i < |models| ==> models[i].name != model) ==> !r
    ensures r <==> exists i ::
      && 0 <= i < |models|
      && models[i].name == model
      && (forall j :: 0 <= j < i ==> models[j].name != model)
      && field in models[i].fields
  {
    var found := FindModel(models, model);
    if found.None? then false
    else field in models[found.value].fields
  }
}
