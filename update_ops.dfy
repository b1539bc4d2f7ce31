/**
 * The nine update-operator wrappers. Each is a struct with a single field whose
 * encoded key is the operator's `$` name and whose value is the untyped payload;
 * the two services declare the same table. For the follower service's copy, the
 * operators' documented effects are given as functions over a document whose
 * fields hold integers.
 */
module UpdateOperators {
  import opened Wrappers
  import opened Bson

  datatype UpdateOp = CurrentDate | Inc | Max | Min | Mul | Rename | Set | SetOnInsert | Unset
  {
    /** The encoded key of the wrapper's single field: a `$` operator name. */
    function Key(): (r: string)
      ensures |r| >= 4 && r[0] == '$'
    {
      match this
      case CurrentDate => "$currentDate"
      case Inc => "$inc"
      case Max => "$max"
      case Min => "$min"
      case Mul => "$mul"
      case Rename => "$rename"
      case Set => "$set"
      case SetOnInsert => "$setOnInsert"
      case Unset => "$unset"
    }
  }

  /** The key table read backwards: which wrapper a key belongs to. */
  function FromKey(key: string): (r: Option<UpdateOp>)
    ensures r.Some? ==> r.value.Key() == key
  {
    if key == "$currentDate" then Some(CurrentDate)
    else if key == "$inc" then Some(Inc)
    else if key == "$max" then Some(Max)
    else if key == "$min" then Some(Min)
    else if key == "$mul" then Some(Mul)
    else if key == "$rename" then Some(Rename)
    else if key == "$set" then Some(Set)
    else if key == "$setOnInsert" then Some(SetOnInsert)
    else if key == "$unset" then Some(Unset)
    else None
  }

  /** Every key names its own wrapper, so the nine keys are pairwise distinct. */
  lemma FromKeyOfKey(op: UpdateOp)
    ensures FromKey(op.Key()) == Some(op)
  {
  }

  lemma KeysDistinct(a: UpdateOp, b: UpdateOp)
    ensures a.Key() == b.Key() <==> a == b
  {
    FromKeyOfKey(a);
    FromKeyOfKey(b);
  }

  /** An instance of one of the nine wrapper structs: the payload is carried as it is. */
  datatype Wrapper = Wrapper(op: UpdateOp, payload: Value)

  /** The wrapper as a document: one element, keyed by the operator. */
  function Encode(w: Wrapper): (r: seq<Elem>)
    ensures Keys(r) == [w.op.Key()]
    ensures Decode(r) == Some(w)
  {
    FromKeyOfKey(w.op);
    [Elem(w.op.Key(), w.payload)]
  }

  /** A one-key document whose key is in the table, read back as its wrapper. */
  function Decode(d: seq<Elem>): (r: Option<Wrapper>)
    ensures r.Some? <==> |d| == 1 && FromKey(d[0].key).Some?
    ensures r.Some? ==> r.value.op.Key() == d[0].key && r.value.payload == d[0].value
  {
    if |d| != 1 then None
    else
      match FromKey(d[0].key)
      case None => None
      case Some(op) => Some(Wrapper(op, d[0].value))
  }

  lemma EncodeOfDecode(d: seq<Elem>)
    requires Decode(d).Some?
    ensures Encode(Decode(d).value) == d
  {
    assert [d[0]] == d;
  }

  // ---------------------------------------------------------------------------
  // The documented effect of each operator on a document of integer fields.

  type IntDoc = map<string, int>

  /** An update: an operator together with its payload. */
  datatype Update =
    | CurrentDateOf(dateFields: set<string>)
    | IncBy(amounts: map<string, int>)
    | MaxOf(bounds: map<string, int>)
    | MinOf(bounds: map<string, int>)
    | MulBy(factors: map<string, int>)
    | RenameTo(from: string, to: string)
    | SetTo(values: map<string, int>)
    | SetOnInsertTo(values: map<string, int>)
    | UnsetAll(fields: set<string>)

  function FieldOr(doc: IntDoc, k: string, default: int): int {
    if k in doc then doc[k] else default
  }

  /** $currentDate: each named field is set to the current time `now`. */
  function ApplyCurrentDate(doc: IntDoc, fields: set<string>, now: int): (r: IntDoc)
    ensures r.Keys == doc.Keys + fields
    ensures forall k :: k in fields ==> r[k] == now
    ensures forall k :: k in doc && k !in fields ==> r[k] == doc[k]
  {
    doc + map k | k in fields :: now
  }

  /** $inc: each named field grows by its amount; a missing field counts as 0. */
  function ApplyInc(doc: IntDoc, amounts: map<string, int>): (r: IntDoc)
    ensures r.Keys == doc.Keys + amounts.Keys
    ensures forall k :: k in amounts ==> r[k] - FieldOr(doc, k, 0) == amounts[k]
    ensures forall k :: k in doc && k !in amounts ==> r[k] == doc[k]
  {
    doc + map k | k in amounts :: FieldOr(doc, k, 0) + amounts[k]
  }

  /** $max: a field is replaced only by a greater value (or set when missing). */
  function ApplyMax(doc: IntDoc, bounds: map<string, int>): (r: IntDoc)
    ensures r.Keys == doc.Keys + bounds.Keys
    ensures forall k :: k in bounds ==> r[k] >= bounds[k] && (k in doc ==> r[k] >= doc[k])
    ensures forall k :: k in bounds ==> r[k] == bounds[k] || (k in doc && r[k] == doc[k])
    ensures forall k :: k in doc && k !in bounds ==> r[k] == doc[k]
  {
    doc + map k | k in bounds && (k !in doc || bounds[k] > doc[k]) :: bounds[k]
  }

  /** $min: a field is replaced only by a smaller value (or set when missing). */
  function ApplyMin(doc: IntDoc, bounds: map<string, int>): (r: IntDoc)
    ensures r.Keys == doc.Keys + bounds.Keys
    ensures forall k :: k in bounds ==> r[k] <= bounds[k] && (k in doc ==> r[k] <= doc[k])
    ensures forall k :: k in bounds ==> r[k] == bounds[k] || (k in doc && r[k] == doc[k])
    ensures forall k :: k in doc && k !in bounds ==> r[k] == doc[k]
  {
    doc + map k | k in bounds && (k !in doc || bounds[k] < doc[k]) :: bounds[k]
  }

  /** $mul: each named field is multiplied by its factor; a missing field becomes 0. */
  function ApplyMul(doc: IntDoc, factors: map<string, int>): (r: IntDoc)
    ensures r.Keys == doc.Keys + factors.Keys
    ensures forall k :: k in factors && k in doc ==> r[k] == doc[k] * factors[k]
    ensures forall k :: k in factors && k !in doc ==> r[k] == 0
    ensures forall k :: k in doc && k !in factors ==> r[k] == doc[k]
  {
    doc + map k | k in factors :: FieldOr(doc, k, 0) * factors[k]
  }

  /** $rename: the value moves to the new name; renaming a field onto itself is refused. */
  function ApplyRename(doc: IntDoc, from: string, to: string): (r: Option<IntDoc>)
    ensures r.None? <==> from == to
    ensures r.Some? && from in doc ==>
              r.value.Keys == doc.Keys - {from} + {to} && r.value[to] == doc[from] &&
              forall k :: k in doc && k != from && k != to ==> r.value[k] == doc[k]
    ensures r.Some? && from !in doc ==> r.value == doc
  {
    if from == to then None
    else if from !in doc then Some(doc)
    else Some((doc - {from})[to := doc[from]])
  }

  /** $set: each named field takes the given value. */
  function ApplySet(doc: IntDoc, values: map<string, int>): (r: IntDoc)
    ensures r.Keys == doc.Keys + values.Keys
    ensures forall k :: k in values ==> r[k] == values[k]
    ensures forall k :: k in doc && k !in values ==> r[k] == doc[k]
  {
    doc + values
  }

  /** $setOnInsert: like $set when the update inserts a document, and nothing otherwise. */
  function ApplySetOnInsert(doc: IntDoc, values: map<string, int>, inserting: bool): (r: IntDoc)
    ensures !inserting ==> r == doc
    ensures inserting ==> r == ApplySet(doc, values)
  {
    if inserting then doc + values else doc
  }

  /** $unset: the named fields are removed. */
  function ApplyUnset(doc: IntDoc, fields: set<string>): (r: IntDoc)
    ensures r.Keys == doc.Keys - fields
    ensures forall k :: k in r ==> r[k] == doc[k]
  {
    doc - fields
  }

  /** The effect of one update on a document; `now` is the clock and `inserting` says whether the update inserts. */
  function Apply(u: Update, doc: IntDoc, now: int, inserting: bool): (r: Option<IntDoc>)
    ensures r.None? <==> u.RenameTo? && u.from == u.to
  {
    match u
    case CurrentDateOf(fields) => Some(ApplyCurrentDate(doc, fields, now))
    case IncBy(amounts) => Some(ApplyInc(doc, amounts))
    case MaxOf(bounds) => Some(ApplyMax(doc, bounds))
    case MinOf(bounds) => Some(ApplyMin(doc, bounds))
    case MulBy(factors) => Some(ApplyMul(doc, factors))
    case RenameTo(from, to) => ApplyRename(doc, from, to)
    case SetTo(values) => Some(ApplySet(doc, values))
    case SetOnInsertTo(values) => Some(ApplySetOnInsert(doc, values, inserting))
    case UnsetAll(fields) => Some(ApplyUnset(doc, fields))
  }

  // ---------------------------------------------------------------------------
  // Laws relating the operators.

  /** $max keeps the larger of the old and the new value; $min the smaller. */
  lemma MaxMinAreExtrema(doc: IntDoc, bounds: map<string, int>, k: string)
    requires k in bounds && k in doc
    ensures ApplyMax(doc, bounds)[k] == if doc[k] >= bounds[k] then doc[k] else bounds[k]
    ensures ApplyMin(doc, bounds)[k] == if doc[k] <= bounds[k] then doc[k] else bounds[k]
  {
  }

  /** Setting, raising to a bound, lowering to a bound and unsetting are idempotent. */
  lemma SetIdempotent(doc: IntDoc, m: map<string, int>)
    ensures ApplySet(ApplySet(doc, m), m) == ApplySet(doc, m)
  {
    var s := ApplySet(doc, m);
    assert ApplySet(s, m) == s;
  }

  lemma MaxIdempotent(doc: IntDoc, m: map<string, int>)
    ensures ApplyMax(ApplyMax(doc, m), m) == ApplyMax(doc, m)
  {
    var x := ApplyMax(doc, m);
    assert ApplyMax(x, m) == x;
  }

  lemma MinIdempotent(doc: IntDoc, m: map<string, int>)
    ensures ApplyMin(ApplyMin(doc, m), m) == ApplyMin(doc, m)
  {
    var y := ApplyMin(doc, m);
    assert ApplyMin(y, m) == y;
  }

  lemma UnsetIdempotent(doc: IntDoc, fields: set<string>)
    ensures ApplyUnset(ApplyUnset(doc, fields), fields) == ApplyUnset(doc, fields)
  {
  }

  /** Read as a field with default 0, an increment adds its amount. */
  lemma IncAt(doc: IntDoc, amounts: map<string, int>, k: string)
    ensures k in ApplyInc(doc, amounts) <==> k in doc || k in amounts
    ensures FieldOr(ApplyInc(doc, amounts), k, 0) == FieldOr(doc, k, 0) + FieldOr(amounts, k, 0)
  {
  }

  /** The amounts of two increments, added field by field. */
  function SumAmounts(a: map<string, int>, b: map<string, int>): (r: map<string, int>)
    ensures r.Keys == a.Keys + b.Keys
    ensures forall k :: FieldOr(r, k, 0) == FieldOr(a, k, 0) + FieldOr(b, k, 0)
  {
    map k | k in a.Keys + b.Keys :: FieldOr(a, k, 0) + FieldOr(b, k, 0)
  }

  /** Two increments add up. */
  lemma IncAdds(doc: IntDoc, a: map<string, int>, b: map<string, int>)
    ensures ApplyInc(ApplyInc(doc, a), b) == ApplyInc(doc, SumAmounts(a, b))
  {
    var lhs, rhs := ApplyInc(ApplyInc(doc, a), b), ApplyInc(doc, SumAmounts(a, b));
    forall k | k in lhs.Keys + rhs.Keys
      ensures k in lhs && k in rhs && lhs[k] == rhs[k]
    {
      IncAt(doc, a, k);
      IncAt(ApplyInc(doc, a), b, k);
      IncAt(doc, SumAmounts(a, b), k);
    }
  }

  /** Renaming there and back restores the document when the new name was free. */
  lemma RenameBack(doc: IntDoc, from: string, to: string)
    requires from != to && from in doc && to !in doc
    ensures ApplyRename(doc, from, to).Some?
    ensures ApplyRename(ApplyRename(doc, from, to).value, to, from) == Some(doc)
  {
    var moved := ApplyRename(doc, from, to).value;
    assert to in moved && moved[to] == doc[from];
    var back := ApplyRename(moved, to, from).value;
    assert back.Keys == doc.Keys;
    forall k | k in doc
      ensures back[k] == doc[k]
    {
    }
    assert back == doc;
  }

  /** After $unset the fields are gone, whatever $set put there before. */
  lemma UnsetAfterSet(doc: IntDoc, values: map<string, int>, fields: set<string>)
    ensures ApplyUnset(ApplySet(doc, values), fields).Keys == (doc.Keys + values.Keys) - fields
    ensures values.Keys <= fields ==> ApplyUnset(ApplySet(doc, values), fields) == ApplyUnset(doc, fields)
  {
    if values.Keys <= fields {
      var lhs := ApplyUnset(ApplySet(doc, values), fields);
      assert lhs == ApplyUnset(doc, fields);
    }
  }

  /** An update of an existing document leaves it unchanged under $setOnInsert. */
  lemma SetOnInsertOnUpdate(doc: IntDoc, values: map<string, int>, now: int)
    ensures Apply(SetOnInsertTo(values), doc, now, false) == Some(doc)
  {
  }
}
