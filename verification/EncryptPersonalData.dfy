// 20260712000002000_encrypt_banking_tax_compensation_payloads.js: every string leaf of the
// BANKING, TAX and COMPENSATION payloads is encrypted by `up` and decrypted by `down`.
module EncryptPersonalData {
  import opened Options
  import opened PayloadRows
  import opened PiiEnvelope

  function DeepTransform(v: Json, at: Path, f: FieldTransform): Option<Json>
    decreases v
  {
    match v
    case String(s) => (match f(at, s) case None => None case Some(t) => Some(String(t)))
    case Array(items) =>
      if forall i | 0 <= i < |items| :: DeepTransform(items[i], at + [Index(i)], f).Some?
      then Some(Array(seq(|items|, i requires 0 <= i < |items| => DeepTransform(items[i], at + [Index(i)], f).value)))
      else None
    case Object(fields) =>
      if forall k | k in fields :: DeepTransform(fields[k], at + [Key(k)], f).Some?
      then Some(Object(map k | k in fields :: DeepTransform(fields[k], at + [Key(k)], f).value))
      else None
    case _ => Some(v)
  }

  ghost predicate Drawn(ivs: Path -> Bytes) {
    forall at :: |ivs(at)| == 12
  }

  function EncryptField(c: Crypto, ivs: Path -> Bytes): FieldTransform {
    (at: Path, s: string) => Some(if Marked(s) then s else Sealed(c, ivs(at), s))
  }

  function DecryptLeaf(c: Crypto): FieldTransform {
    (at: Path, s: string) => DecryptField(c, s)
  }

  // ---------------------------------------------------------------- trees and their leaves

  ghost predicate AllLeaves(v: Json, at: Path, P: (Path, string) -> bool)
    decreases v
  {
    match v
    case String(s) => P(at, s)
    case Array(items) => forall i | 0 <= i < |items| :: AllLeaves(items[i], at + [Index(i)], P)
    case Object(fields) => forall k | k in fields :: AllLeaves(fields[k], at + [Key(k)], P)
    case _ => true
  }

  /** The same tree up to the texts of its string leaves. */
  ghost predicate SameShape(v: Json, w: Json)
    decreases v
  {
    match v
    case String(_) => w.String?
    case Array(items) =>
      w.Array? && |w.items| == |items| && forall i | 0 <= i < |items| :: SameShape(items[i], w.items[i])
    case Object(fields) =>
      w.Object? && w.fields.Keys == fields.Keys && forall k | k in fields :: SameShape(fields[k], w.fields[k])
    case _ => w == v
  }

  function Then(f: FieldTransform, g: FieldTransform): FieldTransform {
    (at: Path, s: string) => match f(at, s) case None => None case Some(t) => g(at, t)
  }

  function Defined(f: FieldTransform): (Path, string) -> bool {
    (at: Path, s: string) => f(at, s).Some?
  }

  function Agree(f: FieldTransform, g: FieldTransform): (Path, string) -> bool {
    (at: Path, s: string) => f(at, s) == g(at, s)
  }

  lemma {:induction false} DefinedOnLeaves(v: Json, at: Path, f: FieldTransform)
    ensures DeepTransform(v, at, f).Some? <==> AllLeaves(v, at, Defined(f))
    decreases v
  {
    match v
    case Array(items) =>
      forall i | 0 <= i < |items|
        ensures DeepTransform(items[i], at + [Index(i)], f).Some? <==> AllLeaves(items[i], at + [Index(i)], Defined(f))
      {
        DefinedOnLeaves(items[i], at + [Index(i)], f);
      }
    case Object(fields) =>
      forall k | k in fields
        ensures DeepTransform(fields[k], at + [Key(k)], f).Some? <==> AllLeaves(fields[k], at + [Key(k)], Defined(f))
      {
        DefinedOnLeaves(fields[k], at + [Key(k)], f);
      }
    case _ =>
  }

  /** Transforming twice is transforming once with the composed leaf transform. */
  lemma {:induction false} Fusion(v: Json, at: Path, f: FieldTransform, g: FieldTransform)
    requires DeepTransform(v, at, f).Some?
    ensures DeepTransform(DeepTransform(v, at, f).value, at, g) == DeepTransform(v, at, Then(f, g))
    decreases v
  {
    match v
    case Array(items) =>
      forall i | 0 <= i < |items|
        ensures DeepTransform(DeepTransform(items[i], at + [Index(i)], f).value, at + [Index(i)], g) ==
                DeepTransform(items[i], at + [Index(i)], Then(f, g))
      {
        Fusion(items[i], at + [Index(i)], f, g);
      }
      var w := DeepTransform(v, at, f).value;
      if DeepTransform(w, at, g).Some? {
        assert DeepTransform(w, at, g).value.items == DeepTransform(v, at, Then(f, g)).value.items;
      }
    case Object(fields) =>
      forall k | k in fields
        ensures DeepTransform(DeepTransform(fields[k], at + [Key(k)], f).value, at + [Key(k)], g) ==
                DeepTransform(fields[k], at + [Key(k)], Then(f, g))
      {
        Fusion(fields[k], at + [Key(k)], f, g);
      }
      var w := DeepTransform(v, at, f).value;
      if DeepTransform(w, at, g).Some? {
        assert DeepTransform(w, at, g).value.fields == DeepTransform(v, at, Then(f, g)).value.fields;
      }
    case _ =>
  }

  lemma {:induction false} AgreeOnLeaves(v: Json, at: Path, f: FieldTransform, g: FieldTransform)
    requires AllLeaves(v, at, Agree(f, g))
    ensures DeepTransform(v, at, f) == DeepTransform(v, at, g)
    decreases v
  {
    match v
    case Array(items) =>
      forall i | 0 <= i < |items|
        ensures DeepTransform(items[i], at + [Index(i)], f) == DeepTransform(items[i], at + [Index(i)], g)
      {
        AgreeOnLeaves(items[i], at + [Index(i)], f, g);
      }
      if DeepTransform(v, at, f).Some? {
        assert DeepTransform(v, at, f).value.items == DeepTransform(v, at, g).value.items;
      }
    case Object(fields) =>
      forall k | k in fields
        ensures DeepTransform(fields[k], at + [Key(k)], f) == DeepTransform(fields[k], at + [Key(k)], g)
      {
        AgreeOnLeaves(fields[k], at + [Key(k)], f, g);
      }
      if DeepTransform(v, at, f).Some? {
        assert DeepTransform(v, at, f).value.fields == DeepTransform(v, at, g).value.fields;
      }
    case _ =>
  }

  lemma {:induction false} LeavesImply(v: Json, at: Path, P: (Path, string) -> bool, Q: (Path, string) -> bool)
    requires AllLeaves(v, at, P) && forall p, s :: P(p, s) ==> Q(p, s)
    ensures AllLeaves(v, at, Q)
    decreases v
  {
    match v
    case Array(items) =>
      forall i | 0 <= i < |items| ensures AllLeaves(items[i], at + [Index(i)], Q) {
        LeavesImply(items[i], at + [Index(i)], P, Q);
      }
    case Object(fields) =>
      forall k | k in fields ensures AllLeaves(fields[k], at + [Key(k)], Q) {
        LeavesImply(fields[k], at + [Key(k)], P, Q);
      }
    case _ =>
  }

  lemma {:induction false} EveryLeaf(v: Json, at: Path, P: (Path, string) -> bool)
    requires forall p, s :: P(p, s)
    ensures AllLeaves(v, at, P)
    decreases v
  {
    match v
    case Array(items) =>
      forall i | 0 <= i < |items| ensures AllLeaves(items[i], at + [Index(i)], P) {
        EveryLeaf(items[i], at + [Index(i)], P);
      }
    case Object(fields) =>
      forall k | k in fields ensures AllLeaves(fields[k], at + [Key(k)], P) {
        EveryLeaf(fields[k], at + [Key(k)], P);
      }
    case _ =>
  }

  /** Whatever the leaf transform, shape and non-string leaves are untouched. */
  lemma {:induction false} ShapeKept(v: Json, at: Path, f: FieldTransform)
    requires DeepTransform(v, at, f).Some?
    ensures SameShape(v, DeepTransform(v, at, f).value)
    decreases v
  {
    match v
    case Array(items) =>
      forall i | 0 <= i < |items| ensures SameShape(items[i], DeepTransform(items[i], at + [Index(i)], f).value) {
        ShapeKept(items[i], at + [Index(i)], f);
      }
    case Object(fields) =>
      forall k | k in fields ensures SameShape(fields[k], DeepTransform(fields[k], at + [Key(k)], f).value) {
        ShapeKept(fields[k], at + [Key(k)], f);
      }
    case _ =>
  }

  // ---------------------------------------------------------------- up and down on one payload

  /** `up` on one payload: it never throws. */
  function Up(c: Crypto, ivs: Path -> Bytes, v: Json, at: Path): (w: Json)
    ensures DeepTransform(v, at, EncryptField(c, ivs)) == Some(w)
  {
    EveryLeaf(v, at, Defined(EncryptField(c, ivs)));
    DefinedOnLeaves(v, at, EncryptField(c, ivs));
    DeepTransform(v, at, EncryptField(c, ivs)).value
  }

  function Down(c: Crypto, v: Json, at: Path): Option<Json> {
    DeepTransform(v, at, DecryptLeaf(c))
  }

  function NonEmptyText(): (Path, string) -> bool {
    (at: Path, s: string) => s != ""
  }

  function MarkedText(): (Path, string) -> bool {
    (at: Path, s: string) => "encpii:" <= s
  }

  /** A second `up`, drawing other vectors, changes nothing. */
  lemma UpTwice(c: Crypto, ivs: Path -> Bytes, ivs': Path -> Bytes, v: Json, at: Path)
    ensures Up(c, ivs', Up(c, ivs, v, at), at) == Up(c, ivs, v, at)
  {
    var e, e' := EncryptField(c, ivs), EncryptField(c, ivs');
    var w := Up(c, ivs, v, at);
    Fusion(v, at, e, e');
    forall p, s ensures Agree(Then(e, e'), e)(p, s) {
      assert Marked(Sealed(c, ivs(p), s));
    }
    EveryLeaf(v, at, Agree(Then(e, e'), e));
    AgreeOnLeaves(v, at, Then(e, e'), e);
  }

  /** After `up` every string leaf is marked. */
  lemma {:induction false} UpMarks(c: Crypto, ivs: Path -> Bytes, v: Json, at: Path)
    ensures AllLeaves(Up(c, ivs, v, at), at, MarkedText())
    decreases v
  {
    match v
    case Array(items) =>
      forall i | 0 <= i < |items| ensures AllLeaves(Up(c, ivs, v, at).items[i], at + [Index(i)], MarkedText()) {
        UpMarks(c, ivs, items[i], at + [Index(i)]);
      }
    case Object(fields) =>
      forall k | k in fields ensures AllLeaves(Up(c, ivs, v, at).fields[k], at + [Key(k)], MarkedText()) {
        UpMarks(c, ivs, fields[k], at + [Key(k)]);
      }
    case String(s) => assert Marked(Sealed(c, ivs(at), s));
    case _ =>
  }

  /** `down` throws exactly when some marked leaf is no valid envelope. */
  ghost predicate Decryptable(c: Crypto, v: Json, at: Path) {
    AllLeaves(v, at, Defined(DecryptLeaf(c)))
  }

  lemma RoundTripOfLeaf(c: Crypto, ivs: Path -> Bytes, at: Path, s: string)
    requires Sound(c) && Drawn(ivs)
    ensures Then(EncryptField(c, ivs), DecryptLeaf(c))(at, s) ==
            if s == "" then None else DecryptLeaf(c)(at, s)
  {
    if !Marked(s) {
      DecryptAfterEncrypt(c, ivs(at), s);
    }
  }

  /** The round trip down(up(t)) = down(t), results and failures alike, holds exactly when the
      payload has no empty string leaf, or holds a marked leaf that `down` rejects anyway. */
  lemma DownAfterUp(c: Crypto, ivs: Path -> Bytes, v: Json, at: Path)
    requires Sound(c) && Drawn(ivs)
    ensures Down(c, Up(c, ivs, v, at), at) == Down(c, v, at)
            <==> AllLeaves(v, at, NonEmptyText()) || !Decryptable(c, v, at)
  {
    var both, d := Then(EncryptField(c, ivs), DecryptLeaf(c)), DecryptLeaf(c);
    var w := Up(c, ivs, v, at);
    Fusion(v, at, EncryptField(c, ivs), d);
    forall p, s ensures both(p, s) == if s == "" then None else d(p, s) {
      RoundTripOfLeaf(c, ivs, p, s);
    }
    if AllLeaves(v, at, NonEmptyText()) {
      LeavesImply(v, at, NonEmptyText(), Agree(both, d));
      AgreeOnLeaves(v, at, both, d);
    } else {
      DefinedOnLeaves(v, at, d);
      DefinedOnLeaves(v, at, both);
      if AllLeaves(v, at, Defined(both)) {
        LeavesImply(v, at, Defined(both), NonEmptyText());
      }
    }
  }

  // ---------------------------------------------------------------- the table

  const ENCRYPTED_CATEGORIES := ["BANKING", "TAX", "COMPENSATION"]

  function UpPayload(c: Crypto, ivs: Path -> Bytes): PayloadTransform {
    (at: Path, v: Json) => DeepTransform(v, at, EncryptField(c, ivs))
  }

  /** One payload after `up` has, or has not, reached it and was then run again. */
  lemma UpAgain(c: Crypto, ivs: Path -> Bytes, ivs': Path -> Bytes, v: Json, at: Path, first: bool)
    requires Sound(c) && Drawn(ivs) && Drawn(ivs')
    ensures var w := Up(c, ivs', if first then Up(c, ivs, v, at) else v, at);
            && AllLeaves(w, at, MarkedText()) && SameShape(v, w)
            && (AllLeaves(v, at, NonEmptyText()) ==> Down(c, w, at) == Down(c, v, at))
  {
    UpTwice(c, ivs, ivs', v, at);
    var last := if first then ivs else ivs';
    UpMarks(c, last, v, at);
    ShapeKept(v, at, EncryptField(c, last));
    DownAfterUp(c, last, v, at);
  }

  /** `up` cut off after any prefix of its rows and run again, in any row order and with new
      vectors: every selected payload is fully encrypted, has its old shape, and decrypts to
      what it decrypted to before, if it has no empty string; no other row has changed. */
  lemma StoppedAndRerun(
      c: Crypto, ivs: Path -> Bytes, ivs': Path -> Bytes,
      rows: map<int, Record>, ids: seq<int>, n: nat, ids': seq<int>, id: int)
    requires Sound(c) && Drawn(ivs) && Drawn(ivs')
    requires QueryResult(rows, Some(ENCRYPTED_CATEGORIES), ids) && n <= |ids|
    requires QueryResult(Transformed(rows, ids[..n], UpPayload(c, ivs)), Some(ENCRYPTED_CATEGORIES), ids')
    requires id in rows
    ensures var again := Transformed(Transformed(rows, ids[..n], UpPayload(c, ivs)), ids', UpPayload(c, ivs'));
            && again.Keys == rows.Keys
            && again[id].category == rows[id].category
            && var selected := rows[id].payload.Some? && rows[id].category in {"BANKING", "TAX", "COMPENSATION"};
            && (!selected ==> again[id] == rows[id])
            && (selected ==>
                  && again[id].payload.Some?
                  && var v, w := rows[id].payload.value, again[id].payload.value;
                     && SameShape(v, w) && AllLeaves(w, [Row(id)], MarkedText())
                     && (AllLeaves(v, [Row(id)], NonEmptyText()) ==> Down(c, w, [Row(id)]) == Down(c, v, [Row(id)])))
  {
    var t, t' := UpPayload(c, ivs), UpPayload(c, ivs');
    forall p, v ensures t(p, v).Some? && t'(p, v).Some? {
      assert t(p, v) == Some(Up(c, ivs, v, p)) && t'(p, v) == Some(Up(c, ivs', v, p));
    }
    RunAgain(rows, Some(ENCRYPTED_CATEGORIES), ids, n, ids', t, t', id);
    if Selected(rows[id], Some(ENCRYPTED_CATEGORIES)) {
      var v, at := rows[id].payload.value, [Row(id)];
      UpAgain(c, ivs, ivs', v, at, id in ids[..n]);
      assert t(at, v) == Some(Up(c, ivs, v, at));
    }
  }
}
