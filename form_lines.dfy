/**
 * The editable order lines of the sales-order and bulk-order forms. A line
 * is an object whose properties the forms change in place: `updateItem`
 * copies the list but keeps the same line objects, and assigns the property
 * of one of them. The helpers here are shared by both forms.
 */
module FormLines {
  import opened Wrappers
  import opened JsStrings

  /** A property value of a line: the text of an input, or a number */
  datatype Value = Text(s: string) | Number(n: int)

  /** One order line, an object with named properties */
  class Line {
    var fields: map<string, Value>

    constructor (fields: map<string, Value>)
      ensures this.fields == fields
    {
      this.fields := fields;
    }
  }

  /** The property values of each line, in list order */
  function Contents(lines: seq<Line>): (c: seq<map<string, Value>>)
    reads lines
    ensures |c| == |lines|
    ensures forall k :: 0 <= k < |lines| ==> c[k] == lines[k].fields
    decreases |lines|
  {
    if |lines| == 0 then [] else [lines[0].fields] + Contents(lines[1..])
  }

  /** No line object appears twice in the list */
  predicate Distinct(lines: seq<Line>) {
    forall i, j :: 0 <= i < j < |lines| ==> lines[i] != lines[j]
  }

  /** `line[name]`, with `None` for `undefined` */
  function Get(fields: map<string, Value>, name: string): Option<Value> {
    if name in fields then Some(fields[name]) else None
  }

  /** JavaScript truthiness of a property: present, and not '' or 0 */
  predicate Truthy(v: Option<Value>) {
    v.Some? && match v.value
               case Text(s) => s != ""
               case Number(n) => n != 0
  }

  /** `parseInt(v)`: the empty text does not parse, and a number is kept. */
  function ParseIntValue(v: Value): (r: Option<int>)
    ensures v == Text("") ==> r.None?
    ensures v.Number? ==> r == Some(v.n)
  {
    match v
    case Text(s) => ParseInt(s)
    case Number(n) => ParseIntOfIntToString(n); ParseInt(IntToString(n))
  }

  /** `parseInt(line[name])`, where `undefined` does not parse */
  function ParseIntField(fields: map<string, Value>, name: string): (r: Option<int>)
    ensures name !in fields ==> r.None?
  {
    if name in fields then ParseIntValue(fields[name]) else None
  }

  /** A typed decimal integer reads back as itself. */
  lemma ParseIntFieldOfDecimal(fields: map<string, Value>, name: string, n: int)
    requires name in fields && fields[name] == Text(IntToString(n))
    ensures ParseIntField(fields, name) == Some(n)
  {
    ParseIntOfIntToString(n);
  }

  /** `items.filter((_, i) => i !== idx)` */
  function WithoutIndex<T>(s: seq<T>, idx: int): (r: seq<T>)
    ensures |r| == if 0 <= idx < |s| then |s| - 1 else |s|
    decreases |s|
  {
    if |s| == 0 then []
    else (if idx == 0 then [] else [s[0]]) + WithoutIndex(s[1..], idx - 1)
  }

  /** Filtering by index removes exactly the element at that index and keeps
      the others in order; an index outside the list removes nothing. */
  lemma {:induction false} WithoutIndexRemovesOne<T>(s: seq<T>, idx: int)
    ensures 0 <= idx < |s| ==> WithoutIndex(s, idx) == s[..idx] + s[idx + 1..]
    ensures !(0 <= idx < |s|) ==> WithoutIndex(s, idx) == s
    decreases |s|
  {
    if |s| > 0 {
      WithoutIndexRemovesOne(s[1..], idx - 1);
      if idx > 0 && idx < |s| {
        assert s[1..][..idx - 1] == s[1..idx];
        assert s[1..][idx..] == s[idx + 1..];
        assert [s[0]] + s[1..idx] == s[..idx];
      }
    }
  }

  lemma DistinctWithoutIndex(lines: seq<Line>, idx: int)
    requires Distinct(lines)
    ensures Distinct(WithoutIndex(lines, idx))
  {
    WithoutIndexRemovesOne(lines, idx);
    if 0 <= idx < |lines| {
      var r := WithoutIndex(lines, idx);
      forall i, j | 0 <= i < j < |r| ensures r[i] != r[j] {
        var i' := if i < idx then i else i + 1;
        var j' := if j < idx then j else j + 1;
        assert r[i] == lines[i'] && r[j] == lines[j'];
      }
    }
  }

  /** `s.map(f)` */
  function Map<A, B>(s: seq<A>, f: A -> B): (r: seq<B>)
    ensures |r| == |s|
    ensures forall k :: 0 <= k < |s| ==> r[k] == f(s[k])
  {
    seq(|s|, k requires 0 <= k < |s| => f(s[k]))
  }

  /** Mapping commutes with appending, removing and replacing one element. */
  lemma MapAppend<A, B>(s: seq<A>, x: A, f: A -> B)
    ensures Map(s + [x], f) == Map(s, f) + [f(x)]
  {
  }

  lemma MapRemove<A, B>(s: seq<A>, idx: nat, f: A -> B)
    requires idx < |s|
    ensures Map(s[..idx] + s[idx + 1..], f) == Map(s, f)[..idx] + Map(s, f)[idx + 1..]
  {
    var rest := s[..idx] + s[idx + 1..];
    var expected := Map(s, f)[..idx] + Map(s, f)[idx + 1..];
    forall k | 0 <= k < |rest| ensures Map(rest, f)[k] == expected[k] {
      if k < idx {
        assert rest[k] == s[k];
      } else {
        assert rest[k] == s[k + 1];
      }
    }
  }

  lemma MapUpdate<A, B>(s: seq<A>, idx: nat, x: A, f: A -> B)
    requires idx < |s|
    ensures Map(s[idx := x], f) == Map(s, f)[idx := f(x)]
  {
  }
}
