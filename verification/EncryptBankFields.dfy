// 20260718000001000_encrypt_payroll_payment_batch_bank_fields.js: four named fields of every
// entry of payload.rows are encrypted by `up` and decrypted by `down`.
module EncryptBankFields {
  import opened Options
  import opened PayloadRows
  import opened PiiEnvelope

  const BANK_ROUTING_FIELDS := ["accountNumber", "iban", "routingNumber", "swiftCode"]

  function EncryptField(c: Crypto, ivs: Path -> Bytes): FieldTransform {
    (at: Path, s: string) => Some(if s == "" || Marked(s) then s else Sealed(c, ivs(at), s))
  }

  function DecryptText(c: Crypto): FieldTransform {
    (at: Path, s: string) => DecryptField(c, s)
  }

  /** A field transform on any value: only strings are transformed. */
  function FieldValue(v: Json, at: Path, f: FieldTransform): Option<Json> {
    if !v.String? then Some(v) else match f(at, v.s) case None => None case Some(t) => Some(String(t))
  }

  function Decimal(n: nat): (s: string)
    ensures s != "" && '0' <= s[0] <= '9'
  {
    var digit := ['0' + (n % 10) as char];
    if n < 10 then digit else Decimal(n / 10) + digit
  }

  function Indexed(items: seq<Json>): map<string, Json> {
    if items == [] then map[] else Indexed(items[..|items| - 1])[Decimal(|items| - 1) := items[|items| - 1]]
  }

  /** `{ ...row }`: arrays and strings spread into indexed properties, other values into none. */
  function Spread(row: Json): map<string, Json> {
    match row
    case Object(fields) => fields
    case Array(items) => Indexed(items)
    case String(s) => Indexed(seq(|s|, i requires 0 <= i < |s| => String([s[i]])))
    case _ => map[]
  }

  predicate RowDefined(row: Json, at: Path, f: FieldTransform) {
    forall k | k in BANK_ROUTING_FIELDS && k in Spread(row) :: FieldValue(Spread(row)[k], at + [Key(k)], f).Some?
  }

  /** One entry of payload.rows; `TransformRow` computes it field by field. */
  function RowTransformed(row: Json, at: Path, f: FieldTransform): map<string, Json>
    requires RowDefined(row, at, f)
  {
    var next := Spread(row);
    map k | k in next :: if k in BANK_ROUTING_FIELDS then FieldValue(next[k], at + [Key(k)], f).value else next[k]
  }

  method TransformRow(row: Json, at: Path, f: FieldTransform) returns (next: map<string, Json>, threw: bool)
    ensures threw == !RowDefined(row, at, f)
    ensures !threw ==> next == RowTransformed(row, at, f)
  {
    next := Spread(row);
    ghost var start := next;
    for i := 0 to |BANK_ROUTING_FIELDS|
      invariant next.Keys == start.Keys
      invariant forall k :: k in BANK_ROUTING_FIELDS[..i] && k in start ==> FieldValue(start[k], at + [Key(k)], f).Some?
      invariant forall k :: k in start ==>
        next[k] == if k in BANK_ROUTING_FIELDS[..i] then FieldValue(start[k], at + [Key(k)], f).value else start[k]
    {
      var field := BANK_ROUTING_FIELDS[i];
      assert BANK_ROUTING_FIELDS[..i + 1] == BANK_ROUTING_FIELDS[..i] + [field];
      if field in next {
        var value := FieldValue(next[field], at + [Key(field)], f);
        if value.None? {
          return next, true;
        }
        next := next[field := value.value];
      }
    }
    return next, false;
  }

  predicate HasRows(v: Json) {
    v.Object? && "rows" in v.fields && v.fields["rows"].Array?
  }

  function Rows(v: Json): seq<Json>
    requires HasRows(v)
  {
    v.fields["rows"].items
  }

  function TransformPayload(v: Json, at: Path, f: FieldTransform): Option<Json> {
    if !HasRows(v) then Some(v)
    else if forall i | 0 <= i < |Rows(v)| :: RowDefined(Rows(v)[i], at + [Index(i)], f)
    then Some(Object(v.fields["rows" :=
      Array(seq(|Rows(v)|, i requires 0 <= i < |Rows(v)| => Object(RowTransformed(Rows(v)[i], at + [Index(i)], f))))]))
    else None
  }

  /** `up` on one payload: it never throws. */
  function Up(c: Crypto, ivs: Path -> Bytes, v: Json, at: Path): (w: Json)
    ensures TransformPayload(v, at, EncryptField(c, ivs)) == Some(w)
  {
    TransformPayload(v, at, EncryptField(c, ivs)).value
  }

  function Down(c: Crypto, v: Json, at: Path): Option<Json> {
    TransformPayload(v, at, DecryptText(c))
  }

  // ---------------------------------------------------------------- laws

  /** Transforming with f and then g is transforming with h, when it is so for every text. */
  ghost predicate Composes(f: FieldTransform, g: FieldTransform, h: FieldTransform) {
    forall at, s :: f(at, s).Some? && g(at, f(at, s).value) == h(at, s)
  }

  lemma RowFusion(row: Json, at: Path, f: FieldTransform, g: FieldTransform, h: FieldTransform)
    requires Composes(f, g, h) && RowDefined(row, at, f)
    ensures var next := Object(RowTransformed(row, at, f));
            && (RowDefined(next, at, g) <==> RowDefined(row, at, h))
            && (RowDefined(row, at, h) ==> RowTransformed(next, at, g) == RowTransformed(row, at, h))
  {
    var start, next := Spread(row), Object(RowTransformed(row, at, f));
    forall k | k in start
      ensures k in Spread(next)
      ensures k in BANK_ROUTING_FIELDS ==>
                FieldValue(Spread(next)[k], at + [Key(k)], g) == FieldValue(start[k], at + [Key(k)], h)
      ensures k !in BANK_ROUTING_FIELDS ==> Spread(next)[k] == start[k]
    {
    }
    assert Spread(next).Keys == start.Keys;
  }

  lemma PayloadFusion(v: Json, at: Path, f: FieldTransform, g: FieldTransform, h: FieldTransform)
    requires Composes(f, g, h) && TransformPayload(v, at, f).Some?
    ensures TransformPayload(TransformPayload(v, at, f).value, at, g) == TransformPayload(v, at, h)
  {
    hide RowDefined, RowTransformed, Composes;
    if HasRows(v) {
      var w := TransformPayload(v, at, f).value;
      forall i | 0 <= i < |Rows(v)|
        ensures RowDefined(Rows(w)[i], at + [Index(i)], g) <==> RowDefined(Rows(v)[i], at + [Index(i)], h)
        ensures RowDefined(Rows(v)[i], at + [Index(i)], h) ==>
                  RowTransformed(Rows(w)[i], at + [Index(i)], g) == RowTransformed(Rows(v)[i], at + [Index(i)], h)
      {
        RowFusion(Rows(v)[i], at + [Index(i)], f, g, h);
      }
      if TransformPayload(v, at, h).Some? {
        assert Rows(TransformPayload(w, at, g).value) == Rows(TransformPayload(v, at, h).value);
        assert TransformPayload(w, at, g).value.fields == TransformPayload(v, at, h).value.fields;
      }
    }
  }

  /** down(up(t)) = down(t) for every payload, results and failures alike: empty strings are
      never sealed here. */
  lemma DownAfterUp(c: Crypto, ivs: Path -> Bytes, v: Json, at: Path)
    requires Sound(c) && (forall p :: |ivs(p)| == 12)
    ensures Down(c, Up(c, ivs, v, at), at) == Down(c, v, at)
  {
    var e, d := EncryptField(c, ivs), DecryptText(c);
    forall p, s ensures e(p, s).Some? && d(p, e(p, s).value) == d(p, s) {
      if s != "" && !Marked(s) {
        DecryptAfterEncrypt(c, ivs(p), s);
      }
    }
    var w := Up(c, ivs, v, at);
    PayloadFusion(v, at, e, d, d);
  }

  /** A second `up`, drawing other vectors, changes nothing. */
  lemma UpTwice(c: Crypto, ivs: Path -> Bytes, ivs': Path -> Bytes, v: Json, at: Path)
    ensures Up(c, ivs', Up(c, ivs, v, at), at) == Up(c, ivs, v, at)
  {
    var e, e' := EncryptField(c, ivs), EncryptField(c, ivs');
    forall p, s ensures e(p, s).Some? && e'(p, e(p, s).value) == e(p, s) {
      assert Marked(Sealed(c, ivs(p), s));
    }
    var w := Up(c, ivs, v, at);
    PayloadFusion(v, at, e, e', e);
  }

  // ---------------------------------------------------------------- what is left alone

  function WithoutBankFields(row: Json): Json {
    if row.Object? then Object(row.fields - {"accountNumber", "iban", "routingNumber", "swiftCode"}) else row
  }

  /** w is v but for the four fields of its rows. */
  ghost predicate SameButBankFields(v: Json, w: Json) {
    if !HasRows(v) then w == v
    else
      && HasRows(w) && w.fields["rows" := Null] == v.fields["rows" := Null]
      && |Rows(w)| == |Rows(v)|
      && forall i | 0 <= i < |Rows(v)| :: WithoutBankFields(Rows(w)[i]) == WithoutBankFields(Rows(v)[i])
  }

  /** Both directions change nothing but the four named fields, exactly when every entry of
      `rows` is an object: the spread turns any other entry into an object. */
  lemma OnlyBankFieldsChange(v: Json, at: Path, f: FieldTransform)
    requires TransformPayload(v, at, f).Some?
    ensures SameButBankFields(v, TransformPayload(v, at, f).value)
            <==> HasRows(v) ==> forall i | 0 <= i < |Rows(v)| :: Rows(v)[i].Object?
  {
    if HasRows(v) {
      var w := TransformPayload(v, at, f).value;
      assert w.fields["rows" := Null] == v.fields["rows" := Null];
      forall i | 0 <= i < |Rows(v)|
        ensures WithoutBankFields(Rows(w)[i]) == WithoutBankFields(Rows(v)[i]) <==> Rows(v)[i].Object?
      {
        if Rows(v)[i].Object? {
          assert WithoutBankFields(Rows(w)[i]).fields == WithoutBankFields(Rows(v)[i]).fields;
        }
      }
    }
  }

  /** The number that decimal digits stand for. */
  function ValueOf(s: string): int {
    if s == "" then 0 else 10 * ValueOf(s[..|s| - 1]) + (s[|s| - 1] as int - '0' as int)
  }

  lemma {:induction false} DecimalValue(n: nat)
    ensures ValueOf(Decimal(n)) == n
  {
    var digit := ['0' + (n % 10) as char];
    if n < 10 {
      assert Decimal(n)[..0] == "";
    } else {
      DecimalValue(n / 10);
      assert Decimal(n)[..|Decimal(n)| - 1] == Decimal(n / 10);
    }
  }

  /** The text is an index of a sequence of `n` items. */
  ghost predicate IsIndex(k: string, n: nat) {
    exists i :: 0 <= i < n && k == Decimal(i)
  }

  lemma {:induction false} IndexedAt(items: seq<Json>, k: string)
    ensures k in Indexed(items) <==> IsIndex(k, |items|)
    decreases |items|
  {
    if items != [] {
      var before := items[..|items| - 1];
      IndexedAt(before, k);
      assert k == Decimal(|before|) ==> IsIndex(k, |items|);
    }
  }

  lemma {:induction false} IndexedItem(items: seq<Json>, i: nat)
    requires i < |items|
    ensures Decimal(i) in Indexed(items) && Indexed(items)[Decimal(i)] == items[i]
    decreases |items|
  {
    DecimalValue(i);
    DecimalValue(|items| - 1);
    if i < |items| - 1 {
      IndexedItem(items[..|items| - 1], i);
    }
  }

  /** What becomes of an array among the rows: an object with its items under their indices, which
      are no names of fields, so that none is transformed. */
  lemma ArrayBecomesObject(items: seq<Json>, at: Path, f: FieldTransform)
    ensures RowDefined(Array(items), at, f)
    ensures var w := RowTransformed(Array(items), at, f);
            && (forall k :: k in w <==> IsIndex(k, |items|))
            && (forall i :: 0 <= i < |items| ==> Decimal(i) in w && w[Decimal(i)] == items[i])
  {
    hide RowDefined, RowTransformed, IsIndex, Indexed;
    forall k ensures k in Indexed(items) <==> IsIndex(k, |items|) {
      IndexedAt(items, k);
    }
    forall i | 0 <= i < |items| ensures Decimal(i) in Indexed(items) && Indexed(items)[Decimal(i)] == items[i] {
      IndexedItem(items, i);
    }
    forall k | k in Indexed(items) ensures k !in BANK_ROUTING_FIELDS {
      IndexIsNoField(k, |items|);
    }
    NoFieldToTransform(Array(items), at, f);
  }

  lemma IndexIsNoField(k: string, n: nat)
    requires IsIndex(k, n)
    ensures k !in BANK_ROUTING_FIELDS
  {
    var i :| 0 <= i < n && k == Decimal(i);
    assert '0' <= k[0] <= '9';
  }

  lemma NoFieldToTransform(row: Json, at: Path, f: FieldTransform)
    requires forall k :: k in Spread(row) ==> k !in BANK_ROUTING_FIELDS
    ensures RowDefined(row, at, f) && RowTransformed(row, at, f) == Spread(row)
  {
    hide FieldValue, Spread;
  }

  /** After `up` the four fields hold no plain text: strings there are marked or empty. */
  lemma BankFieldsSealed(c: Crypto, ivs: Path -> Bytes, v: Json, at: Path, i: nat, k: string)
    requires HasRows(v) && i < |Rows(v)| && k in {"accountNumber", "iban", "routingNumber", "swiftCode"}
    ensures var w := Up(c, ivs, v, at);
            && HasRows(w) && i < |Rows(w)| && Rows(w)[i].Object?
            && (k in Rows(w)[i].fields <==> k in Spread(Rows(v)[i]))
            && (k in Rows(w)[i].fields && Rows(w)[i].fields[k].String? ==>
                  Rows(w)[i].fields[k].s == "" || "encpii:" <= Rows(w)[i].fields[k].s)
  {
    var w := Up(c, ivs, v, at);
    var next := Spread(Rows(v)[i]);
    if k in next && next[k].String? {
      assert Marked(Sealed(c, ivs(at + [Index(i)] + [Key(k)]), next[k].s));
    }
  }

  // ---------------------------------------------------------------- the table

  function UpPayload(c: Crypto, ivs: Path -> Bytes): PayloadTransform {
    (at: Path, v: Json) => TransformPayload(v, at, EncryptField(c, ivs))
  }

  /** `up` cut off after any prefix of its rows and run again: every payload is what one
      uninterrupted `up` makes of it, and decrypts to what it decrypted to before. */
  lemma StoppedAndRerun(
      c: Crypto, ivs: Path -> Bytes, ivs': Path -> Bytes,
      rows: map<int, Record>, ids: seq<int>, n: nat, ids': seq<int>, id: int)
    requires Sound(c) && (forall p :: |ivs(p)| == 12) && (forall p :: |ivs'(p)| == 12)
    requires QueryResult(rows, None, ids) && n <= |ids|
    requires QueryResult(Transformed(rows, ids[..n], UpPayload(c, ivs)), None, ids')
    requires id in rows
    ensures var again := Transformed(Transformed(rows, ids[..n], UpPayload(c, ivs)), ids', UpPayload(c, ivs'));
            && again.Keys == rows.Keys
            && (rows[id].payload.None? ==> again[id] == rows[id])
            && (rows[id].payload.Some? ==>
                  var v, drawn := rows[id].payload.value, if id in ids[..n] then ivs else ivs';
                  && again[id] == rows[id].(payload := Some(Up(c, drawn, v, [Row(id)])))
                  && Down(c, again[id].payload.value, [Row(id)]) == Down(c, v, [Row(id)]))
  {
    var t, t' := UpPayload(c, ivs), UpPayload(c, ivs');
    forall p, v ensures t(p, v).Some? && t'(p, v).Some? {
      assert t(p, v) == Some(Up(c, ivs, v, p)) && t'(p, v) == Some(Up(c, ivs', v, p));
    }
    RunAgain(rows, None, ids, n, ids', t, t', id);
    if rows[id].payload.Some? {
      var v, at := rows[id].payload.value, [Row(id)];
      assert t(at, v) == Some(Up(c, ivs, v, at));
      UpTwice(c, ivs, ivs', v, at);
      DownAfterUp(c, ivs, v, at);
      DownAfterUp(c, ivs', v, at);
    }
  }
}
