/** The nested JSON-like values the matcher searches, and paths into them. */
module Tree {

  datatype Option<T> = None | Some(value: T)

  /** A searched value. `Obj` lists an object's own entries in the order
      `Object.entries` reports them; `Other` stands for numbers, booleans,
      `null` and `undefined`, none of which is ever matched. */
  datatype Value =
    | Arr(items: seq<Value>)
    | Obj(fields: seq<(string, Value)>)
    | Str(s: string)
    | Other

  /** One step of a path: an array position or an object key. */
  datatype Segment = Idx(i: nat) | Key(k: string)

  type Path = seq<Segment>

  /** No key occurs twice among an object's entries. */
  predicate DistinctKeys(fields: seq<(string, Value)>) {
    forall p, q :: 0 <= p < q < |fields| ==> fields[p].0 != fields[q].0
  }

  /** Every object inside the value has distinct keys, as JavaScript objects do. */
  predicate WellFormed(v: Value) {
    match v
    case Arr(items) => forall i :: 0 <= i < |items| ==> WellFormed(items[i])
    case Obj(fields) =>
      && DistinctKeys(fields)
      && forall i :: 0 <= i < |fields| ==> WellFormed(fields[i].1)
    case _ => true
  }

  /** The position of the first entry with key `k`, or `|fields|` when there
      is none. */
  function KeyIndex(fields: seq<(string, Value)>, k: string): (n: nat)
    ensures n <= |fields|
    ensures n < |fields| ==> fields[n].0 == k
    ensures forall i :: 0 <= i < n ==> fields[i].0 != k
  {
    if |fields| == 0 then 0
    else if fields[0].0 == k then 0
    else 1 + KeyIndex(fields[1..], k)
  }

  /** Property access `obj[k]`: the value of the first entry with key `k`. */
  function Lookup(fields: seq<(string, Value)>, k: string): Option<Value> {
    var n := KeyIndex(fields, k);
    if n < |fields| then Some(fields[n].1) else None
  }

  /** With distinct keys, the key of entry `i` is found at entry `i`. */
  lemma KeyIndexDistinct(fields: seq<(string, Value)>, i: nat)
    requires DistinctKeys(fields) && i < |fields|
    ensures KeyIndex(fields, fields[i].0) == i
    ensures Lookup(fields, fields[i].0) == Some(fields[i].1)
  {
  }

  /** The sub-value a path leads to, following array positions and object
      keys; `None` when a step does not exist. */
  function Resolve(v: Value, p: Path): Option<Value>
    decreases |p|
  {
    if |p| == 0 then Some(v)
    else
      match (p[0], v)
      case (Idx(i), Arr(items)) => if i < |items| then Resolve(items[i], p[1..]) else None
      case (Key(k), Obj(fields)) =>
        (match Lookup(fields, k)
         case Some(c) => Resolve(c, p[1..])
         case None => None)
      case _ => None
  }

  /** No segment of the path is an excluded key. */
  predicate AvoidsKeys(p: Path, excludeKeys: seq<string>) {
    forall n :: 0 <= n < |p| ==> !(p[n].Key? && p[n].k in excludeKeys)
  }

  function DigitChar(d: nat): char
    requires d < 10
  {
    "0123456789"[d]
  }

  /** Decimal rendering of an array index, as a template literal prints it. */
  function Decimal(n: nat): string
  {
    if n < 10 then [DigitChar(n)] else Decimal(n / 10) + [DigitChar(n % 10)]
  }

  /** The text one segment appends to a path: `[i]` or `.key`. */
  function RenderSegment(s: Segment): string {
    match s
    case Idx(i) => "[" + Decimal(i) + "]"
    case Key(k) => "." + k
  }

  /** The path string the source builds, starting from `""`. */
  function Render(p: Path): string {
    if |p| == 0 then "" else RenderSegment(p[0]) + Render(p[1..])
  }

  /** Extending a path extends its rendering: the source builds the string
      incrementally, one segment per level. */
  lemma {:induction false} RenderAppend(p: Path, q: Path)
    ensures Render(p + q) == Render(p) + Render(q)
  {
    if |p| == 0 {
      assert p + q == q;
    } else {
      assert (p + q)[1..] == p[1..] + q;
      RenderAppend(p[1..], q);
    }
  }

  /** The position of the child that segment `seg` selects: the index for an
      array, the entry position for an object. */
  function ChildRank(v: Value, seg: Segment): nat {
    match seg
    case Idx(i) => i
    case Key(k) => if v.Obj? then KeyIndex(v.fields, k) else 0
  }

  /** Depth-first document order: below their common prefix, `p` leaves
      through an earlier child than `q`. */
  predicate Precedes(v: Value, p: Path, q: Path)
    decreases |p|
  {
    && |p| > 0 && |q| > 0
    && if p[0] == q[0] then
         match Resolve(v, [p[0]])
         case Some(c) => Precedes(c, p[1..], q[1..])
         case None => false
       else ChildRank(v, p[0]) < ChildRank(v, q[0])
  }
}
