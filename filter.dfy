/**
 * `FilterUtil.retrieveOrOptions` of the project-management API: a TypeORM
 * query that matches a row when any of the given fields contains the search
 * text, with the relations to load, newest first.
 */
module Filter {
  import opened Wrappers

  /** `{ [field]: Like(pattern) }`: a condition on exactly one field. */
  datatype Condition = Condition(field: string, pattern: string)

  datatype Direction = Asc | Desc

  /** The `FindManyOptions` built: OR-ed conditions, relations, and one ordering. */
  datatype FindManyOptions = FindManyOptions(
    where: seq<Condition>, relations: seq<string>, orderField: string, direction: Direction)

  /** The LIKE pattern of a search: the text anywhere in the field. */
  function LikePattern(search: string): (p: string)
    ensures |p| == |search| + 2 && p[0] == '%' && p[|p| - 1] == '%' && p[1..|p| - 1] == search
  {
    "%" + search + "%"
  }

  /** The OR-ed conditions for `fields`: the search pattern on each field, in order. */
  function OrConditions(fields: seq<string>, search: string): (cs: seq<Condition>)
    ensures |cs| == |fields|
    ensures forall i :: 0 <= i < |fields| ==> cs[i].field == fields[i] && cs[i].pattern == LikePattern(search)
  {
    seq(|fields|, i requires 0 <= i < |fields| => Condition(fields[i], LikePattern(search)))
  }

  /**
   * `retrieveOrOptions(fields, relations = [], search = '')`: one condition
   * per field, in the order of `fields`, each the search pattern on that
   * field alone; `relations` passed through; ordered by `createdAt` descending.
   */
  method RetrieveOrOptions(fields: seq<string>, relations: Option<seq<string>>, search: Option<string>)
    returns (o: FindManyOptions)
    ensures o.where == OrConditions(fields, search.GetOr(""))
    ensures o.relations == relations.GetOr([])
    ensures o.orderField == "createdAt" && o.direction == Desc
  {
    var s := search.GetOr("");
    var conditions: seq<Condition> := [];
    for k := 0 to |fields|
      invariant conditions == OrConditions(fields[..k], s)
    {
      var condition := Condition(fields[k], LikePattern(s));
      conditions := conditions + [condition];
    }
    assert fields[..|fields|] == fields;
    o := FindManyOptions(conditions, relations.GetOr([]), "createdAt", Desc);
  }

  /** The fields a list of conditions constrains, in order. */
  function Fields(where: seq<Condition>): seq<string> {
    if where == [] then [] else Fields(where[..|where| - 1]) + [where[|where| - 1].field]
  }

  /**
   * The conditions name back exactly the fields given, in order, and each
   * carries the search text wrapped in `%`; no fields means no conditions.
   */
  lemma {:induction false} OrConditionsFields(fields: seq<string>, search: string)
    ensures Fields(OrConditions(fields, search)) == fields
    ensures forall i :: 0 <= i < |fields| ==> OrConditions(fields, search)[i].pattern == LikePattern(search)
    ensures fields == [] <==> OrConditions(fields, search) == []
  {
    if fields != [] {
      var init := fields[..|fields| - 1];
      OrConditionsFields(init, search);
      assert OrConditions(fields, search)[..|fields| - 1] == OrConditions(init, search);
    }
  }
}
