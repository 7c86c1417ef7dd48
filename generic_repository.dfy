/**
 * `GenericRepository` of the project-management API, over an abstract table:
 * the records in insertion order, each with its primary key `id` and its
 * other columns. A lookup returns the first record that satisfies every
 * defined condition of its `where`; a condition whose value is undefined is
 * dropped, as TypeORM does.
 */
module GenericRepository {
  import opened Wrappers
  import opened Arith
  import opened JsText
  import opened HttpErrors
  import opened Paginator

  /** The columns of a record other than `id`, or the partial data of a create or an update. */
  type Columns = map<string, string>

  datatype Record = Record(id: string, columns: Columns)

  /** The value of column `f` of `r`, `id` included. */
  function ColumnOf(r: Record, f: string): Option<string> {
    if f == "id" then Some(r.id) else if f in r.columns then Some(r.columns[f]) else None
  }

  /** `FindOneOptions`: a value per column of the `where`; `None` stands for `undefined`. */
  datatype FindOneOptions = FindOneOptions(where: map<string, Option<string>>)

  predicate Matches(r: Record, o: FindOneOptions) {
    forall f :: f in o.where && o.where[f].Some? ==> ColumnOf(r, f) == o.where[f]
  }

  /** `findOne(options)`: the first record that matches, if any. */
  function FindOne(table: seq<Record>, o: FindOneOptions): (r: Option<Record>)
    ensures r.Some? <==> exists i :: 0 <= i < |table| && Matches(table[i], o)
    ensures r.Some? ==> r.value in table && Matches(r.value, o)
  {
    if table == [] then None
    else if Matches(table[0], o) then Some(table[0])
    else
      var rest := FindOne(table[1..], o);
      assert forall i :: 1 <= i < |table| ==> table[i] == table[1..][i - 1];
      rest
  }

  /** `options(data)`: a `where` on the unique column alone, with `data`'s value for it. */
  function Options(uniqueField: string, data: Columns): (o: FindOneOptions)
    ensures o.where.Keys == {uniqueField}
    ensures uniqueField in data ==> o.where[uniqueField] == Some(data[uniqueField])
    ensures uniqueField !in data ==> o.where[uniqueField] == None
  {
    FindOneOptions(map[uniqueField := if uniqueField in data then Some(data[uniqueField]) else None])
  }

  /** `idOptions(id)`: a `where` on `id` alone. */
  function IdOptions(id: string): (o: FindOneOptions)
    ensures forall r :: Matches(r, o) <==> r.id == id
  {
    var o := FindOneOptions(map["id" := Some(id)]);
    assert forall r :: Matches(r, o) <==> ColumnOf(r, "id") == Some(id);
    o
  }

  /** What `recordExistence` returns. */
  datatype Existence = Existence(existence: bool, record: Option<Record>)

  /** `recordExistence(options)`: whether a record matches, and the first one that does. */
  function RecordExistence(table: seq<Record>, o: FindOneOptions): (e: Existence)
    ensures e.existence <==> e.record.Some?
    ensures e.existence <==> exists i :: 0 <= i < |table| && Matches(table[i], o)
    ensures e.record == FindOne(table, o)
  {
    var record := FindOne(table, o);
    if record.Some? then Existence(true, record) else Existence(false, record)
  }

  const DuplicatedMessage: string := "This record is duplicated into the database. You cannot recreate it"
  const MissingMessage: string := "This record does not exist into the database"

  /** `repository.update(id, data)`: every record with that `id` gets `data`'s columns, the others are untouched. */
  function UpdateWhere(table: seq<Record>, id: string, data: Columns): (t: seq<Record>)
    ensures |t| == |table|
    ensures forall i :: 0 <= i < |table| ==>
      t[i] == if table[i].id == id then Record(id, table[i].columns + data) else table[i]
  {
    seq(|table|, i requires 0 <= i < |table| => if table[i].id == id then Record(id, table[i].columns + data) else table[i])
  }

  /** `repository.remove(record)`: the table without the records of that `id`. */
  function RemoveWhere(table: seq<Record>, id: string): (t: seq<Record>)
    ensures forall r :: r in t <==> r in table && r.id != id
  {
    if table == [] then []
    else (if table[0].id == id then [] else [table[0]]) + RemoveWhere(table[1..], id)
  }

  /** No two records share an `id`. */
  predicate UniqueIds(table: seq<Record>) {
    forall i, j :: 0 <= i < j < |table| ==> table[i].id != table[j].id
  }

  /** The records that `keep` selects, in table order. */
  function Filtered(table: seq<Record>, keep: Record -> bool): (t: seq<Record>)
    ensures |t| <= |table|
    ensures forall r :: r in t <==> r in table && keep(r)
  {
    if table == [] then []
    else (if keep(table[0]) then [table[0]] else []) + Filtered(table[1..], keep)
  }

  /** Page `page` of `all`: the rows `[page*limit, page*limit + limit)` that exist. */
  function Page(all: seq<Record>, page: nat, limit: int): (items: seq<Record>)
    requires limit > 0
    ensures var w := Window(CalculateOffset(page, limit), |all|);
      items == all[Min(w.start, |all|)..Min(w.end, |all|)]
  {
    var offset := CalculateOffset(page, limit);
    all[Min(offset.skip, |all|)..Min(offset.skip + offset.take, |all|)]
  }

  /**
   * Paging through the selection loses nothing and repeats nothing: every
   * selected record `all[x]` is on a page below `totalPages`, at position
   * `x - page*limit`, and on no other page.
   */
  lemma RecordOnOnePage(all: seq<Record>, limit: int, x: int) returns (page: nat)
    requires limit > 0 && 0 <= x < |all|
    ensures page < Mapper(Page(all, page, limit), |all|, Some(Int(page)), limit).totalPages
    ensures 0 <= x - page * limit < |Page(all, page, limit)| && Page(all, page, limit)[x - page * limit] == all[x]
    ensures forall q: nat :: q != page ==> !(q * limit <= x < q * limit + limit)
  {
    page := PageOfRow(|all|, limit, x);
    forall q: nat | q != page ensures !(q * limit <= x < q * limit + limit) {
      var w := Window(CalculateOffset(q, limit), |all|);
      assert w.start == q * limit && w.end == Min(q * limit + limit, |all|);
    }
  }

  /** What `updateEntity` returns: how many records the update touched. */
  datatype UpdateResult = UpdateResult(affected: nat)

  function CountId(table: seq<Record>, id: string): nat {
    if table == [] then 0 else (if table[0].id == id then 1 else 0) + CountId(table[1..], id)
  }

  /** With unique ids, a present `id` is held by exactly one record. */
  lemma {:induction false} CountIdUnique(table: seq<Record>, id: string)
    requires UniqueIds(table)
    ensures CountId(table, id) == if exists i :: 0 <= i < |table| && table[i].id == id then 1 else 0
  {
    if table != [] {
      var rest := table[1..];
      assert UniqueIds(rest) by {
        forall i, j | 0 <= i < j < |rest| ensures rest[i].id != rest[j].id {
          assert rest[i] == table[i + 1] && rest[j] == table[j + 1];
        }
      }
      CountIdUnique(rest, id);
      if table[0].id == id {
        forall i | 0 <= i < |rest| ensures rest[i].id != id {
          assert rest[i] == table[i + 1];
        }
      } else {
        assert (exists i :: 0 <= i < |table| && table[i].id == id) <==> (exists i :: 0 <= i < |rest| && rest[i].id == id) by {
          forall i | 0 <= i < |rest| ensures rest[i] == table[i + 1] { }
          if exists i :: 0 <= i < |table| && table[i].id == id {
            var i :| 0 <= i < |table| && table[i].id == id;
            assert rest[i - 1].id == id;
          }
        }
      }
    }
  }

  class Repository {
    /** The backing table, in insertion order. */
    var table: seq<Record>
    /** The events emitted so far: the event name and the record it carries. */
    var events: seq<(string, Record)>
    /** `uniqueParams.uniqueField` */
    const uniqueField: string
    /** `uniqueParams.isActive`: whether creation checks the unique column. */
    const isActive: bool

    ghost predicate Valid()
      reads this
    {
      UniqueIds(table)
    }

    constructor (table: seq<Record>, uniqueField: string, isActive: bool)
      requires UniqueIds(table)
      ensures Valid()
      ensures this.table == table && events == [] && this.uniqueField == uniqueField && this.isActive == isActive
    {
      this.table := table;
      events := [];
      this.uniqueField := uniqueField;
      this.isActive := isActive;
    }

    /** `recordIsUnique(data, isActive)`: with the check on, a record matching `options(data)` is a duplicate. */
    function RecordIsUnique(data: Columns): (err: Option<HttpException>)
      reads this
      ensures err.Some? <==> isActive && RecordExistence(table, Options(uniqueField, data)).existence
      ensures err.Some? ==> err.value == BadRequest(Text(DuplicatedMessage))
    {
      if isActive && RecordExistence(table, Options(uniqueField, data)).existence then Some(BadRequest(Text(DuplicatedMessage)))
      else None
    }

    /**
     * `createEntity(data)`: a duplicate is refused and nothing changes;
     * otherwise exactly one record, with the `id` the database assigns, is
     * appended and returned.
     */
    method CreateEntity(data: Columns, newId: string) returns (r: Result<Record, HttpException>)
      requires Valid()
      requires forall i :: 0 <= i < |table| ==> table[i].id != newId
      modifies this
      ensures Valid() && events == old(events)
      ensures old(RecordIsUnique(data)).Some? ==> r == Failure(old(RecordIsUnique(data)).value) && table == old(table)
      ensures old(RecordIsUnique(data)).None? ==> r == Success(Record(newId, data)) && table == old(table) + [Record(newId, data)]
    {
      var err := RecordIsUnique(data);
      if err.Some? {
        return Failure(err.value);
      }
      var record := Record(newId, data);
      table := table + [record];
      r := Success(record);
    }

    /**
     * `updateEntity(id, data, beforeUpdatedEvent)`: a missing `id` is
     * NotFound and nothing changes. Otherwise the event, when its name is a
     * non-empty string, is emitted with the record as it was, and then the
     * record gets `data`'s columns.
     */
    method UpdateEntity(id: string, data: Columns, beforeUpdatedEvent: Option<string>) returns (r: Result<UpdateResult, HttpException>)
      requires Valid()
      modifies this
      ensures Valid()
      ensures FindOne(old(table), IdOptions(id)).None? ==>
        r == Failure(NotFound(Text(MissingMessage))) && table == old(table) && events == old(events)
      ensures FindOne(old(table), IdOptions(id)).Some? ==>
        && r == Success(UpdateResult(1))
        && table == UpdateWhere(old(table), id, data)
        && events == old(events)
                     + (if beforeUpdatedEvent.Some? && beforeUpdatedEvent.value != ""
                        then [(beforeUpdatedEvent.value, FindOne(old(table), IdOptions(id)).value)] else [])
    {
      var found := RecordExistence(table, IdOptions(id));
      if !found.existence {
        return Failure(NotFound(Text(MissingMessage)));
      }
      if beforeUpdatedEvent.Some? && beforeUpdatedEvent.value != "" {
        events := events + [(beforeUpdatedEvent.value, found.record.value)];
      }
      CountIdUnique(table, id);
      var affected := CountId(table, id);
      UpdateKeepsIds(table, id, data);
      table := UpdateWhere(table, id, data);
      r := Success(UpdateResult(affected));
    }

    /** `deleteEntity(id)`: a missing `id` is NotFound; otherwise that record is removed and returned. */
    method DeleteEntity(id: string) returns (r: Result<Record, HttpException>)
      requires Valid()
      modifies this
      ensures Valid() && events == old(events)
      ensures FindOne(old(table), IdOptions(id)).None? ==> r == Failure(NotFound(Text(MissingMessage))) && table == old(table)
      ensures FindOne(old(table), IdOptions(id)).Some? ==>
        r == Success(FindOne(old(table), IdOptions(id)).value) && table == RemoveWhere(old(table), id)
    {
      var found := RecordExistence(table, IdOptions(id));
      if !found.existence {
        return Failure(NotFound(Text(MissingMessage)));
      }
      RemoveKeepsIds(table, id);
      table := RemoveWhere(table, id);
      r := Success(found.record.value);
    }

    /**
     * `getEntities(page, limit, options)`: the page of the records the options
     * select, `[page*limit, page*limit + limit)` of them, wrapped by `mapper`
     * with the count of all selected records.
     */
    function GetEntities(page: nat, limit: int, keep: Record -> bool): (d: PaginatorDto<Record>)
      reads this
      requires limit > 0
      ensures var all := Filtered(table, keep);
        && d.total == |all|
        && d.items == Page(all, page, limit)
        && d.items == all[Min(page * limit, |all|)..Min(page * limit + limit, |all|)]
        && d.currentPage == page
        && (|all| > 0 ==> (d.totalPages - 1) * limit < |all| <= d.totalPages * limit)
    {
      var all := Filtered(table, keep);
      Mapper(Page(all, page, limit), |all|, Some(Int(page)), limit)
    }
  }

  lemma UpdateKeepsIds(table: seq<Record>, id: string, data: Columns)
    requires UniqueIds(table)
    ensures UniqueIds(UpdateWhere(table, id, data))
  {
  }

  lemma {:induction false} RemoveKeepsIds(table: seq<Record>, id: string)
    requires UniqueIds(table)
    ensures UniqueIds(RemoveWhere(table, id))
  {
    if table != [] {
      var rest := table[1..];
      assert UniqueIds(rest) by {
        forall i, j | 0 <= i < j < |rest| ensures rest[i].id != rest[j].id {
          assert rest[i] == table[i + 1] && rest[j] == table[j + 1];
        }
      }
      RemoveKeepsIds(rest, id);
      var t := RemoveWhere(rest, id);
      if table[0].id != id {
        forall r | r in t ensures r.id != table[0].id {
          var k :| 0 <= k < |rest| && rest[k] == r;
          assert rest[k] == table[k + 1];
        }
        var u := [table[0]] + t;
        forall i, j | 0 <= i < j < |u| ensures u[i].id != u[j].id {
          if i == 0 {
            assert u[j] in t;
          } else {
            assert u[i] == t[i - 1] && u[j] == t[j - 1];
          }
        }
      }
    }
  }

  /** Uniqueness of the values of column `f` among the records that have one. */
  predicate UniqueValues(table: seq<Record>, f: string) {
    forall i, j :: 0 <= i < j < |table| && ColumnOf(table[i], f).Some? ==> ColumnOf(table[i], f) != ColumnOf(table[j], f)
  }

  /** A created record, with an `id` no other record has, is what `findOne(idOptions(id))` finds next. */
  lemma CreateThenFind(table: seq<Record>, r: Record)
    requires forall i :: 0 <= i < |table| ==> table[i].id != r.id
    ensures FindOne(table + [r], IdOptions(r.id)) == Some(r)
  {
    FindAppended(table, r, IdOptions(r.id));
  }

  lemma {:induction false} FindAppended(table: seq<Record>, r: Record, o: FindOneOptions)
    requires forall i :: 0 <= i < |table| ==> !Matches(table[i], o)
    requires Matches(r, o)
    ensures FindOne(table + [r], o) == Some(r)
  {
    if table != [] {
      assert (table + [r])[1..] == table[1..] + [r];
      FindAppended(table[1..], r, o);
    }
  }

  /**
   * With the check on, creation keeps the unique column unique: a record is
   * appended only when no record matches `options(data)`, so its value, if it
   * has one, is new.
   */
  lemma CreateKeepsUnique(table: seq<Record>, f: string, data: Columns, newId: string)
    requires f != "id" && UniqueValues(table, f)
    requires !RecordExistence(table, Options(f, data)).existence
    ensures UniqueValues(table + [Record(newId, data)], f)
  {
    var t := table + [Record(newId, data)];
    forall i, j | 0 <= i < j < |t| && ColumnOf(t[i], f).Some? ensures ColumnOf(t[i], f) != ColumnOf(t[j], f) {
      if j == |table| && f in data {
        assert !Matches(table[i], Options(f, data));
      }
    }
  }

  /**
   * A value-less `where` matches every record: creating data without the
   * unique column is refused as a duplicate as soon as the table holds a record.
   */
  lemma MissingUniqueValueMatchesAll(table: seq<Record>, f: string, data: Columns)
    requires f !in data && table != []
    ensures RecordExistence(table, Options(f, data)).existence
  {
    assert Matches(table[0], Options(f, data));
  }

  /** After an update, looking the `id` up finds the old columns overwritten by `data`. */
  lemma {:induction false} UpdateThenFind(table: seq<Record>, id: string, data: Columns)
    requires FindOne(table, IdOptions(id)).Some?
    ensures FindOne(UpdateWhere(table, id, data), IdOptions(id))
         == Some(Record(id, FindOne(table, IdOptions(id)).value.columns + data))
  {
    if table[0].id != id {
      assert UpdateWhere(table, id, data)[1..] == UpdateWhere(table[1..], id, data);
      UpdateThenFind(table[1..], id, data);
    }
  }

  /** A removed `id` is found no more; with unique ids exactly one record goes, and every other record stays. */
  lemma {:induction false} RemoveOne(table: seq<Record>, id: string)
    requires UniqueIds(table) && FindOne(table, IdOptions(id)).Some?
    ensures FindOne(RemoveWhere(table, id), IdOptions(id)).None?
    ensures |RemoveWhere(table, id)| == |table| - 1
  {
    var rest := table[1..];
    if table[0].id == id {
      assert forall i :: 0 <= i < |rest| ==> rest[i] == table[i + 1];
      RemoveNone(rest, id);
    } else {
      assert UniqueIds(rest) by {
        forall i, j | 0 <= i < j < |rest| ensures rest[i].id != rest[j].id {
          assert rest[i] == table[i + 1] && rest[j] == table[j + 1];
        }
      }
      RemoveOne(rest, id);
    }
  }

  lemma {:induction false} RemoveNone(table: seq<Record>, id: string)
    requires forall i :: 0 <= i < |table| ==> table[i].id != id
    ensures RemoveWhere(table, id) == table
  {
    if table != [] {
      RemoveNone(table[1..], id);
    }
  }
}
