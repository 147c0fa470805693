/** Values and small helpers shared by every part of the model. */
module Common {

  /** Primary keys of every table; the store hands them out from one counter. */
  type Id = nat

  /** Timestamps (created_at, updated_at, completed_at) as ticks of a monotone clock. */
  type Time = nat

  datatype Option<T> = None | Some(value: T)
  {
    function GetOr(default: T): T
    {
      match this
      case Some(v) => v
      case None => default
    }
  }

  /** A request parameter: not sent at all, or sent with a value that may be JSON null. */
  datatype Param<T> = Omitted | Sent(value: Option<T>)

  /** Mass assignment of one attribute: an omitted parameter keeps the current value. */
  function Assign<T>(p: Param<T>, current: Option<T>): Option<T>
  {
    match p
    case Omitted => current
    case Sent(v) => v
  }

  /** The characters Ruby's `blank?` treats as white space (ASCII subset). */
  predicate IsSpace(c: char)
  {
    c == ' ' || c == '\t' || c == '\n' || c == '\r' || c == '\U{000B}' || c == '\U{000C}'
  }

  /** `blank?` on a string: empty or only white space. */
  predicate Blank(s: string)
  {
    forall i :: 0 <= i < |s| ==> IsSpace(s[i])
  }

  /** `present?` on a nullable string. */
  predicate Present(o: Option<string>)
  {
    o.Some? && !Blank(o.value)
  }

  /** ASCII upper-casing of one character. */
  function UpChar(c: char): (r: char)
    ensures 'a' <= c <= 'z' ==> 'A' <= r <= 'Z'
    ensures !('a' <= c <= 'z') ==> r == c
  {
    if 'a' <= c <= 'z' then (c as int - 32) as char else c
  }

  /** `upcase` / `toUpperCase` on ASCII text. */
  function Upcase(s: string): (r: string)
    ensures |r| == |s|
    ensures forall i :: 0 <= i < |s| ==> r[i] == UpChar(s[i])
  {
    seq(|s|, i requires 0 <= i < |s| => UpChar(s[i]))
  }

  /** ASCII lower-casing of one character. */
  function DownChar(c: char): (r: char)
    ensures 'A' <= c <= 'Z' ==> 'a' <= r <= 'z'
    ensures !('A' <= c <= 'Z') ==> r == c
  {
    if 'A' <= c <= 'Z' then (c as int + 32) as char else c
  }

  /**
   * The comparison key of the `utf8mb4_0900_ai_ci` collation every table uses,
   * as far as the model follows it: ASCII letters compare without case.
   */
  function Fold(s: string): (r: string)
    ensures |r| == |s|
    ensures forall i :: 0 <= i < |s| ==> r[i] == DownChar(s[i])
  {
    seq(|s|, i requires 0 <= i < |s| => DownChar(s[i]))
  }

  /** Equality of two strings under the tables' collation (`=` in SQL, unique indexes, `find_by`). */
  predicate SameText(a: string, b: string)
  {
    Fold(a) == Fold(b)
  }

  /** Under the collation, text equals its upper-cased form, and folded text is left as it is. */
  lemma {:induction false} UpcaseIsSameText(s: string)
    ensures SameText(Upcase(s), s)
    ensures Fold(Fold(s)) == Fold(s)
  {
    forall i | 0 <= i < |s|
      ensures DownChar(UpChar(s[i])) == DownChar(s[i])
    {
      var c := s[i];
      if 'a' <= c <= 'z' {
        assert UpChar(c) as int == c as int - 32;
      }
    }
    assert Fold(Upcase(s)) == Fold(s);
  }

  /** Every key of the table is below the next id to be handed out. */
  ghost predicate KeysBelow<T>(m: map<Id, T>, n: nat)
  {
    forall k :: k in m ==> k < n
  }

  /** The walk over the primary key index behind `Where`: ids below `n` in ascending order. */
  function Scan<T>(m: map<Id, T>, n: nat, p: (Id, T) -> bool): seq<Id>
  {
    if n == 0 then []
    else Scan(m, n - 1, p) + (if n - 1 in m && p(n - 1, m[n - 1]) then [n - 1] else [])
  }

  lemma {:induction false} ScanSelects<T>(m: map<Id, T>, n: nat, p: (Id, T) -> bool)
    ensures forall i :: 0 <= i < |Scan(m, n, p)| ==>
      Scan(m, n, p)[i] < n && Scan(m, n, p)[i] in m && p(Scan(m, n, p)[i], m[Scan(m, n, p)[i]])
    ensures forall k :: k < n && k in m && p(k, m[k]) ==> k in Scan(m, n, p)
    ensures forall i, j :: 0 <= i < j < |Scan(m, n, p)| ==> Scan(m, n, p)[i] < Scan(m, n, p)[j]
  {
    if n > 0 {
      ScanSelects(m, n - 1, p);
    }
  }

  /**
   * The keys below `n` whose rows satisfy `p`, in ascending id order: a `where`
   * clause evaluated by walking the primary key index.
   */
  function Where<T>(m: map<Id, T>, n: nat, p: (Id, T) -> bool): (r: seq<Id>)
    ensures forall i :: 0 <= i < |r| ==> r[i] < n && r[i] in m && p(r[i], m[r[i]])
    ensures forall k :: k < n && k in m && p(k, m[k]) ==> k in r
    ensures forall i, j :: 0 <= i < j < |r| ==> r[i] < r[j]
  {
    ScanSelects(m, n, p);
    Scan(m, n, p)
  }

  /** The rows `Where` selects below `n`, as a set. */
  ghost function Selected<T>(m: map<Id, T>, n: nat, p: (Id, T) -> bool): set<Id>
  {
    set k | k in m && k < n && p(k, m[k])
  }

  lemma {:induction false} ScanCount<T>(m: map<Id, T>, n: nat, p: (Id, T) -> bool)
    ensures |Scan(m, n, p)| == |Selected(m, n, p)|
  {
    if n > 0 {
      ScanCount(m, n - 1, p);
      if n - 1 in m && p(n - 1, m[n - 1]) {
        var below := Selected(m, n - 1, p);
        assert n - 1 !in below;
        assert Selected(m, n, p) == below + {n - 1};
      } else {
        assert Selected(m, n, p) == Selected(m, n - 1, p);
      }
    }
  }

  /** `count` agrees with the listing: each selected row is listed once. */
  lemma WhereCount<T>(m: map<Id, T>, n: nat, p: (Id, T) -> bool)
    ensures |Where(m, n, p)| == |Selected(m, n, p)|
  {
    ScanCount(m, n, p);
  }

  lemma {:induction false} ScanAgrees<T>(m: map<Id, T>, n: nat, p: (Id, T) -> bool, q: (Id, T) -> bool)
    requires forall k :: k < n && k in m ==> p(k, m[k]) == q(k, m[k])
    ensures Scan(m, n, p) == Scan(m, n, q)
  {
    if n > 0 {
      ScanAgrees(m, n - 1, p, q);
    }
  }

  /** Two conditions that agree on every row below `n` select the same listing. */
  lemma WhereAgrees<T>(m: map<Id, T>, n: nat, p: (Id, T) -> bool, q: (Id, T) -> bool)
    requires forall k :: k < n && k in m ==> p(k, m[k]) == q(k, m[k])
    ensures Where(m, n, p) == Where(m, n, q)
  {
    ScanAgrees(m, n, p, q);
  }

  /** The first element, as `.first` on a relation. */
  function First<T>(s: seq<T>): (r: Option<T>)
    ensures r.None? <==> s == []
    ensures r.Some? ==> r.value == s[0]
  {
    if s == [] then None else Some(s[0])
  }

  function Reverse<T>(s: seq<T>): (r: seq<T>)
    ensures |r| == |s|
    ensures forall i :: 0 <= i < |s| ==> r[i] == s[|s| - 1 - i]
  {
    if s == [] then [] else Reverse(s[1..]) + [s[0]]
  }

  lemma ReverseKeepsElements<T>(s: seq<T>)
    ensures forall x :: x in Reverse(s) <==> x in s
  {
    var r := Reverse(s);
    forall x | x in s
      ensures x in r
    {
      var i :| 0 <= i < |s| && s[i] == x;
      assert r[|s| - 1 - i] == x;
    }
  }

  /** Decimal rendering of an id, the text a request parameter carries. */
  function DecimalText(n: nat): (r: string)
    ensures |r| >= 1
    ensures forall i :: 0 <= i < |r| ==> '0' <= r[i] <= '9'
  {
    if n < 10 then [('0' as int + n) as char]
    else DecimalText(n / 10) + [('0' as int + n % 10) as char]
  }

  /** The number a string of decimal digits denotes. */
  function DigitsValue(s: string): nat
    requires forall i :: 0 <= i < |s| ==> '0' <= s[i] <= '9'
  {
    if s == [] then 0 else DigitsValue(s[..|s| - 1]) * 10 + (s[|s| - 1] as int - '0' as int)
  }

  /** Reading the decimal text of an id gives the id back. */
  lemma {:induction false} DecimalTextRoundTrip(n: nat)
    ensures DigitsValue(DecimalText(n)) == n
  {
    if n >= 10 {
      var s := DecimalText(n);
      assert s[..|s| - 1] == DecimalText(n / 10);
      DecimalTextRoundTrip(n / 10);
    }
  }

  /** Different ids have different texts. */
  lemma DecimalTextInjective(a: nat, b: nat)
    ensures DecimalText(a) == DecimalText(b) ==> a == b
  {
    DecimalTextRoundTrip(a);
    DecimalTextRoundTrip(b);
  }

  lemma SubsetCardinality<T>(a: set<T>, b: set<T>)
    requires a <= b
    ensures |a| <= |b|
  {
    if a != {} {
      var x :| x in a;
      SubsetCardinality(a - {x}, b - {x});
    }
  }
}
