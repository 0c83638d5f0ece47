// What the two encryption migrations share: JSON payloads in table rows, and the loop of
// transformRows, which rewrites the payloads of the rows that its query returned.
module PayloadRows {
  import opened Options

  datatype Json =
    | Null
    | Boolean(b: bool)
    | Number(n: real)
    | String(s: string)
    | Array(items: seq<Json>)
    | Object(fields: map<string, Json>)

  /** Where a string is. Each encryption draws its own initialisation vector, so vectors are
      given by position. */
  datatype Step = Row(id: int) | Index(i: nat) | Key(k: string)
  type Path = seq<Step>

  /** None where the source throws. */
  type FieldTransform = (Path, string) -> Option<string>
  type PayloadTransform = (Path, Json) -> Option<Json>

  datatype Record = Record(category: string, payload: Option<Json>)

  /** The query: rows with a payload, in the given categories or in all. */
  predicate Selected(r: Record, categories: Option<seq<string>>) {
    r.payload.Some? && (categories.Some? ==> r.category in categories.value)
  }

  /** What the query may return: the selected rows, each once, in any order. */
  ghost predicate QueryResult(rows: map<int, Record>, categories: Option<seq<string>>, ids: seq<int>) {
    && (forall id :: id in ids <==> id in rows && Selected(rows[id], categories))
    && (forall i, j :: 0 <= i < j < |ids| ==> ids[i] != ids[j])
  }

  predicate Transformable(rows: map<int, Record>, id: int, t: PayloadTransform) {
    id in rows && rows[id].payload.Some? && t([Row(id)], rows[id].payload.value).Some?
  }

  /** The table with the payloads of `ids` transformed. */
  ghost function Transformed(rows: map<int, Record>, ids: seq<int>, t: PayloadTransform): map<int, Record> {
    map id | id in rows ::
      if id in ids && Transformable(rows, id, t)
      then rows[id].(payload := t([Row(id)], rows[id].payload.value)) else rows[id]
  }

  lemma NoRows(rows: map<int, Record>, t: PayloadTransform)
    ensures Transformed(rows, [], t) == rows
  {
  }

  lemma OneMoreRow(rows: map<int, Record>, ids: seq<int>, n: nat, t: PayloadTransform)
    requires n < |ids| && ids[n] !in ids[..n] && Transformable(rows, ids[n], t)
    ensures var id, before, after := ids[n], Transformed(rows, ids[..n], t), Transformed(rows, ids[..n + 1], t);
            && id in before && before[id] == rows[id]
            && after == before[id := rows[id].(payload := t([Row(id)], rows[id].payload.value))]
  {
    assert ids[..n + 1] == ids[..n] + [ids[n]];
  }

  class PayloadTable {
    const categories: Option<seq<string>>
    var rows: map<int, Record>

    constructor (categories: Option<seq<string>>, rows: map<int, Record>)
      ensures this.categories == categories && this.rows == rows
    {
      this.categories, this.rows := categories, rows;
    }

    /** `ids` is the order in which the query returned the rows; the run is cut off after
        `limit` of them, or at the first one whose transform throws. */
    method TransformRows(ids: seq<int>, t: PayloadTransform, limit: nat) returns (updated: nat, threw: bool)
      requires QueryResult(rows, categories, ids) && limit <= |ids|
      modifies this
      ensures updated <= limit && threw == (updated < limit)
      ensures threw ==> !Transformable(old(rows), ids[updated], t)
      ensures forall i :: 0 <= i < updated ==> Transformable(old(rows), ids[i], t)
      ensures rows == Transformed(old(rows), ids[..updated], t)
    {
      hide Transformed;
      var queried := rows;
      NoRows(queried, t);
      assert ids[..0] == [];
      updated := 0;
      while updated < limit
        invariant updated <= limit
        invariant forall i :: 0 <= i < updated ==> Transformable(queried, ids[i], t)
        invariant rows == Transformed(queried, ids[..updated], t)
      {
        var id := ids[updated];
        assert id in queried && Selected(queried[id], categories);
        var transformed := t([Row(id)], queried[id].payload.value);
        if transformed.None? {
          return updated, true;
        }
        OneMoreRow(queried, ids, updated, t);
        rows := rows[id := rows[id].(payload := transformed)];
        updated := updated + 1;
      }
      return updated, false;
    }
  }

  /** A run of `t` cut off after any prefix of its rows, then a full run of `t'` over what its
      own query returns: every selected payload has gone through `t'`, those of the prefix
      through `t` before; no other row has changed. */
  lemma RunAgain(
      rows: map<int, Record>, categories: Option<seq<string>>, ids: seq<int>, n: nat, ids': seq<int>,
      t: PayloadTransform, t': PayloadTransform, id: int)
    requires forall p, v :: t(p, v).Some? && t'(p, v).Some?
    requires QueryResult(rows, categories, ids) && n <= |ids|
    requires QueryResult(Transformed(rows, ids[..n], t), categories, ids')
    ensures var again := Transformed(Transformed(rows, ids[..n], t), ids', t');
            && again.Keys == rows.Keys
            && (id in rows ==>
                  again[id] ==
                    if Selected(rows[id], categories)
                    then var v := rows[id].payload.value;
                         rows[id].(payload := t'([Row(id)], if id in ids[..n] then t([Row(id)], v).value else v))
                    else rows[id])
  {
    var once := Transformed(rows, ids[..n], t);
    if id in rows {
      assert id in ids' <==> Selected(once[id], categories);
      assert Selected(once[id], categories) <==> Selected(rows[id], categories);
    }
  }
}
