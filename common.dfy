/** Shared vocabulary of the request handlers: optional values, the shape of a
    decoded JSON request body as zod sees it, the handlers' replies, and the
    JavaScript string operations the handlers rely on. */
module Common {

  datatype Option<+T> = None | Some(value: T)

  /** A user id as the auth layer reports it (a UUID string). */
  type UserId = string

  /** Who made the request: `session.user`, or nothing when there is no session. */
  datatype Caller = Caller(id: UserId, email: Option<string>)

  /** One property of a decoded JSON object: missing, `null`, a value of the
      type the schema asks for, or a value of another JSON type. */
  datatype Field<+T> = Absent | Null | Val(v: T) | Mistyped

  /** What `await req.json()` produced: not JSON at all, JSON that is not an
      object, or an object whose properties are given. */
  datatype Json<+T> = NotJson | NonObject | Object(body: T)

  /** The message of an error reply: a literal of the handler, zod's
      description of the failed checks, the store's error message, or an
      exception that escaped the handler (the framework answers 500). */
  datatype ErrorText = Text(s: string) | SchemaIssues | StoreError(message: string) | Thrown

  /** `NextResponse.json(...)`: `{ ok: true, ... }` or `{ ok: false, error }` with a status. */
  datatype Reply<+T> = Ok(value: T) | Err(status: int, error: ErrorText)

  const Unauthorized: Reply<()> := Err(401, Text("Unauthorized"))

  /** A timestamp in milliseconds since the epoch (`Date.getTime()`). */
  type Millis = int

  /** `30 * 24 * 60 * 60 * 1000`. */
  const ThirtyDaysMs: int := 2592000000

  // ---------- zod field checks ----------

  /** The value a property carries, if it carries one of the right type. */
  function ValueOf<T>(f: Field<T>): Option<T> {
    if f.Val? then Some(f.v) else None
  }

  /** `z.string().check().optional()`: absent is fine, `null` is not. */
  function Optional<T>(f: Field<T>, check: T -> bool): (r: Option<Option<T>>)
    ensures r.Some? <==> (f.Absent? || (f.Val? && check(f.v)))
    ensures r == Some(None) <==> f.Absent?
    ensures r.Some? ==> r.value == ValueOf(f)
  {
    match f
    case Absent => Some(None)
    case Val(v) => if check(v) then Some(Some(v)) else None
    case _ => None
  }

  /** `z.string().optional().nullable()`: absent and `null` both read as no value. */
  function OptionalNullable<T>(f: Field<T>): (r: Option<Option<T>>)
    ensures r.Some? <==> !f.Mistyped?
    ensures r == Some(None) <==> (f.Absent? || f.Null?)
    ensures r.Some? ==> r.value == ValueOf(f)
  {
    match f
    case Absent => Some(None)
    case Null => Some(None)
    case Val(v) => Some(Some(v))
    case Mistyped => None
  }

  /** A required property that must pass `check`. */
  function Required<T>(f: Field<T>, check: T -> bool): (r: Option<T>)
    ensures r.Some? <==> (f.Val? && check(f.v))
    ensures r.Some? ==> r.value == f.v
  {
    if f.Val? && check(f.v) then Some(f.v) else None
  }

  // ---------- JavaScript string helpers ----------

  /** JavaScript truthiness of an optional string: present and not "". */
  predicate Truthy(s: Option<string>) {
    s.Some? && s.value != ""
  }

  /** `a || b` on an optional string. */
  function OrElse(s: Option<string>, default: string): (r: string)
    ensures Truthy(s) ==> r == s.value
    ensures !Truthy(s) ==> r == default
  {
    if Truthy(s) then s.value else default
  }

  /** `a ?? b`: any present value is kept, even "" or 0; only a missing
      (`null` or `undefined`) value gives the default. */
  function Nullish<T>(s: Option<T>, default: T): (r: T)
    ensures s.Some? ==> r == s.value
    ensures s.None? ==> r == default
  {
    if s.Some? then s.value else default
  }

  predicate IsDigit(c: char) { '0' <= c <= '9' }

  predicate IsHexDigit(c: char) {
    IsDigit(c) || 'a' <= c <= 'f' || 'A' <= c <= 'F'
  }

  /** zod's `.uuid()`: five groups of 8, 4, 4, 4 and 12 hexadecimal digits
      joined by hyphens. */
  predicate IsUuid(s: string) {
    |s| == 36 &&
    forall i | 0 <= i < 36 ::
      if i == 8 || i == 13 || i == 18 || i == 23 then s[i] == '-' else IsHexDigit(s[i])
  }

  /** The last `n` characters (`s.slice(-n)` for `0 < n`). */
  function LastN(s: string, n: nat): (r: string)
    ensures |r| == if |s| < n then |s| else n
    ensures s == s[..|s| - |r|] + r
  {
    if |s| < n then s else s[|s| - n..]
  }

  /** Keep the rows a predicate selects, in order. */
  function Filter<T>(rows: seq<T>, keep: T -> bool): (r: seq<T>)
    ensures |r| <= |rows|
    ensures forall x | x in r :: x in rows && keep(x)
    ensures forall x | x in rows && keep(x) :: x in r
  {
    if rows == [] then []
    else if keep(rows[0]) then [rows[0]] + Filter(rows[1..], keep)
    else Filter(rows[1..], keep)
  }

  /** `.limit(n)`: the first `n` rows. */
  function Take<T>(rows: seq<T>, n: nat): (r: seq<T>)
    ensures |r| == if |rows| < n then |rows| else n
    ensures r == rows[..|r|]
    ensures forall x | x in r :: x in rows
  {
    if |rows| <= n then rows else rows[..n]
  }

  /** Rows in the opposite order (`.order("created_at", { ascending: false })`
      over rows kept in insertion order). */
  function Reverse<T>(s: seq<T>): (r: seq<T>)
    ensures |r| == |s|
    ensures forall i | 0 <= i < |s| :: r[i] == s[|s| - 1 - i]
    ensures forall x | x in r :: x in s
    ensures forall x | x in s :: x in r
  {
    if s == [] then [] else Reverse(s[1..]) + [s[0]]
  }

  /** Filtering distributes over concatenation. */
  lemma {:induction false} FilterAppend<T>(a: seq<T>, b: seq<T>, keep: T -> bool)
    ensures Filter(a + b, keep) == Filter(a, keep) + Filter(b, keep)
  {
    if a == [] {
      assert a + b == b;
    } else {
      assert (a + b)[1..] == a[1..] + b;
      FilterAppend(a[1..], b, keep);
    }
  }

  /** The position of the last row `keep` selects, or -1. Rows are kept in
      insertion order, so this is the newest such row by `created_at`. */
  function LastIndex<T>(rows: seq<T>, keep: T -> bool): (r: int)
    ensures -1 <= r < |rows|
    ensures r >= 0 ==> keep(rows[r])
    ensures forall j | r < j < |rows| :: !keep(rows[j])
  {
    if rows == [] then -1
    else if keep(rows[|rows| - 1]) then |rows| - 1
    else LastIndex(rows[..|rows| - 1], keep)
  }

  /** The newest row `keep` selects, if any. */
  function Latest<T>(rows: seq<T>, keep: T -> bool): (r: Option<T>)
    ensures r.None? <==> forall x | x in rows :: !keep(x)
    ensures r.Some? ==> r.value in rows && keep(r.value)
  {
    var i := LastIndex(rows, keep);
    if i < 0 then None else Some(rows[i])
  }

  /** `Latest` is the first row of `.order("created_at", { ascending: false })
      .limit(1)` over the selected rows. */
  lemma {:induction false} LatestIsNewestFirst<T>(rows: seq<T>, keep: T -> bool)
    ensures Latest(rows, keep) == (var f := Reverse(Filter(rows, keep)); if f == [] then None else Some(f[0]))
  {
    if rows != [] {
      var init := rows[..|rows| - 1];
      var x := rows[|rows| - 1];
      assert rows == init + [x];
      FilterAppend(init, [x], keep);
      if !keep(x) {
        LatestIsNewestFirst(init, keep);
        assert Filter([x], keep) == [];
        assert Filter(rows, keep) == Filter(init, keep);
      }
    }
  }

  /** Rows added after a selected one do not change the newest unless they
      are selected themselves: only the newest row is ever consulted. */
  lemma {:induction false} LatestOfAppend<T>(rows: seq<T>, more: seq<T>, keep: T -> bool)
    requires forall x | x in more :: !keep(x)
    ensures Latest(rows + more, keep) == Latest(rows, keep)
  {
    if more != [] {
      var all := rows + more;
      assert all[..|all| - 1] == rows + more[..|more| - 1];
      LatestOfAppend(rows, more[..|more| - 1], keep);
    } else {
      assert rows + more == rows;
    }
  }

  /** Two tables whose rows agree on which the filter selects have the
      newest selected row at the same place. */
  lemma {:induction false} SameLastIndex<T>(a: seq<T>, b: seq<T>, keep: T -> bool)
    requires |a| == |b| && forall i | 0 <= i < |a| :: keep(a[i]) == keep(b[i])
    ensures LastIndex(a, keep) == LastIndex(b, keep)
  {
    if a != [] {
      SameLastIndex(a[..|a| - 1], b[..|b| - 1], keep);
    }
  }
}
