/** The flat records the reports are made of: a row is a Python dict from
    column name to a scalar, kept with its keys in insertion order. */
module Rows {
  import opened Common
  import Time

  /** The scalars a row can hold: None, text, numbers, booleans and dates. */
  datatype Value = Null | Str(s: string) | Int(i: int) | Bool(b: bool) | DateValue(date: Time.Date)

  datatype Field = Field(key: string, value: Value)

  /** A dict, its entries in insertion order. */
  type Row = seq<Field>

  /** `list(row.keys())`. */
  function Keys(row: Row): (ks: seq<string>)
    ensures |ks| == |row|
    ensures forall i :: 0 <= i < |row| ==> ks[i] == row[i].key
  {
    if row == [] then [] else [row[0].key] + Keys(row[1..])
  }

  predicate Distinct(ks: seq<string>) {
    forall i, j :: 0 <= i < j < |ks| ==> ks[i] != ks[j]
  }

  /** A dict never holds a key twice. */
  predicate DistinctKeys(row: Row) {
    Distinct(Keys(row))
  }

  /** `row.get(key)`: the value stored under `key`, if any. */
  function Lookup(row: Row, key: string): Option<Value>
  {
    if row == [] then None
    else if row[0].key == key then Some(row[0].value)
    else Lookup(row[1..], key)
  }

  lemma {:induction false} KeysOfConcat(a: Row, b: Row)
    ensures Keys(a + b) == Keys(a) + Keys(b)
  {
  }

  /** In a dict every key names exactly the one entry that holds it. */
  lemma {:induction false} LookupAt(row: Row, i: nat)
    requires DistinctKeys(row) && i < |row|
    ensures Lookup(row, row[i].key) == Some(row[i].value)
  {
    if i > 0 {
      assert row[1..][i - 1] == row[i];
      assert Keys(row[1..]) == Keys(row)[1..];
      LookupAt(row[1..], i - 1);
    }
  }

  /** An optional text as the row value Python stores for it. */
  function OptionalStr(s: Option<string>): (v: Value)
    ensures v.Null? <==> s.None?
    ensures s.Some? ==> v == Str(s.value)
  {
    match s
    case None => Null
    case Some(x) => Str(x)
  }
}
