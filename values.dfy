/** JavaScript values as the records hold them: attribute bags, truthiness,
    the text a value turns into inside a template string, and the errors the
    core raises. */
module Values {

  datatype Option<T> = None | Some(value: T)

  /** A property value. `Undefined` stands for a property that is not set. */
  datatype Value =
    | Undefined
    | Null
    | Bool(b: bool)
    | Num(n: int)
    | Str(s: string)
    | Time(ms: int)           // a Date built from a number of milliseconds
    | DateText(text: string)  // a Date built from a text (the text is not parsed)

  /** A property name. The names the core reads or writes are constructors of
      their own; `Other` holds any further name. The model does not stop an
      `Other` from spelling one of the named ones: such a property is simply
      a different one, which no operation of the core reads. */
  datatype Key =
    | Id | CreatedAt | Version | Name | Url | Size | NumParts | Uploaded
    | ContentType | LocalId | StorageType | NumPartsCamel | PartSize
    | Other(name: string)

  /** An object's own enumerable properties. */
  type Bag = map<Key, Value>

  /** Reading a property: a missing one reads as `undefined`. */
  function Get(bag: Bag, key: Key): (v: Value) {
    if key in bag then bag[key] else Undefined
  }

  /** Two bags without undefined properties are equal when every property reads the same. */
  lemma SameBag(a: Bag, b: Bag)
    requires forall k :: k in a ==> a[k] != Undefined
    requires forall k :: k in b ==> b[k] != Undefined
    requires forall k :: Get(a, k) == Get(b, k)
    ensures a == b
  {
    assert a.Keys == b.Keys by {
      forall k | k in a
        ensures k in b
      {
        assert Get(a, k) != Undefined;
      }
      forall k | k in b
        ensures k in a
      {
        assert Get(b, k) != Undefined;
      }
    }
    forall k | k in a
      ensures a[k] == b[k]
    {
      assert Get(a, k) == Get(b, k);
    }
  }

  /** JavaScript truthiness (NaN is not a value of this model). */
  predicate Truthy(v: Value) {
    match v
    case Undefined => false
    case Null => false
    case Bool(b) => b
    case Num(n) => n != 0
    case Str(s) => s != ""
    case Time(_) => true
    case DateText(_) => true
  }

  /** `a || b` */
  function Or(a: Value, b: Value): (r: Value)
    ensures Truthy(a) ==> r == a
    ensures !Truthy(a) ==> r == b
  {
    if Truthy(a) then a else b
  }

  /** `new Date(v)` for a value that is truthy. */
  function ToDate(v: Value): (r: Value)
    ensures r.Time? || r.DateText?
    ensures v.Time? ==> r == v
    ensures v.Num? ==> r == Time(v.n)
  {
    match v
    case Num(n) => Time(n)
    case Str(s) => DateText(s)
    case Bool(b) => Time(if b then 1 else 0)
    case Time(ms) => Time(ms)
    case DateText(t) => DateText(t)
    case _ => DateText("")
  }

  /** `a || b` is truthy exactly when one of its operands is. */
  lemma TruthyOr(a: Value, b: Value)
    ensures Truthy(Or(a, b)) <==> Truthy(a) || Truthy(b)
    ensures !Truthy(a) && !Truthy(b) ==> Or(a, b) == b
  {
  }

  /** The decimal digits of a natural number, most significant first. */
  function NatText(n: nat): (r: string)
    ensures |r| >= 1
    ensures forall i :: 0 <= i < |r| ==> '0' <= r[i] <= '9'
  {
    if n < 10 then [DigitChar(n)] else NatText(n / 10) + [DigitChar(n % 10)]
  }

  function DigitChar(d: nat): (c: char)
    requires d < 10
    ensures '0' <= c <= '9'
  {
    (48 + d) as char
  }

  /** `String(n)` for an integer. */
  function IntText(i: int): (r: string) {
    if i < 0 then "-" + NatText(-i) else NatText(i)
  }

  /** `String(v)`, the text a value becomes inside a template string. */
  function Text(v: Value): (r: string)
    ensures v.Str? ==> r == v.s
    ensures v.Num? && v.n >= 0 ==> r == NatText(v.n)
    ensures v.Num? && v.n < 0 ==> r == "-" + NatText(-v.n)
    ensures v == Undefined ==> r == "undefined"
  {
    match v
    case Undefined => "undefined"
    case Null => "null"
    case Bool(b) => if b then "true" else "false"
    case Num(n) => IntText(n)
    case Str(s) => s
    case Time(_) => ""
    case DateText(_) => ""
  }

  /** Different numbers have different decimal texts. */
  lemma {:induction false} NatTextInjective(a: nat, b: nat)
    requires NatText(a) == NatText(b)
    ensures a == b
  {
    var s := NatText(a);
    if a < 10 && b < 10 {
      assert DigitChar(a) == s[0] == DigitChar(b);
    } else if 10 <= a && 10 <= b {
      var n := |s| - 1;
      assert DigitChar(a % 10) == s[n] == DigitChar(b % 10);
      assert NatText(a / 10) == s[..n] == NatText(b / 10);
      NatTextInjective(a / 10, b / 10);
    }
  }

  /** Why an operation failed. `Thrown` carries a string the source throws. */
  datatype Error =
    | Thrown(message: string)
    | NotFound(key: Value)
    | ParseError
    | HookThrew(hookId: nat)
    | TransportError(key: Value)

  datatype Outcome = Pass | Fail(error: Error)

  datatype Result<T> = Ok(value: T) | Err(error: Error)
}
