/** The admin safety dashboard (`/admin/safety`): query-string helpers,
    page/size arithmetic, the filters and the three paged listings. */
module AdminPage {
  import opened Common
  import opened Store
  import opened AdminGuard
  import SafetyCheckin

  // ---------- the query string ----------

  /** A value of `searchParams`: one string, the strings of a repeated key,
      or `undefined`. */
  datatype SearchValue = One(s: string) | Many(all: seq<string>) | Undefined

  /** `searchParams` as its entries, in order. */
  type SearchDict = seq<(string, SearchValue)>

  /** The name/value pairs of a `URLSearchParams`, in order. */
  type Params = seq<(string, string)>

  /** No name occurs twice (the keys of an object; parameters built by `set`). */
  predicate KeysUnique<V>(entries: seq<(string, V)>) {
    forall i, j | 0 <= i < j < |entries| :: entries[i].0 != entries[j].0
  }

  /** `sp[key]`. */
  function Lookup(sp: SearchDict, key: string): (r: SearchValue)
    ensures r != Undefined ==> (key, r) in sp
    ensures (forall e | e in sp :: e.0 != key) ==> r == Undefined
    ensures forall i | 0 <= i < |sp| && sp[i].0 == key && (forall j | 0 <= j < i :: sp[j].0 != key) ::
              r == sp[i].1
  {
    if sp == [] then Undefined
    else if sp[0].0 == key then sp[0].1
    else
      var r := Lookup(sp[1..], key);
      assert forall i | 1 <= i < |sp| :: sp[i] == sp[1..][i - 1];
      r
  }

  /** `getStr`: the first element of an array value, the value itself when it
      is a string (even ""), the default otherwise. */
  function GetStr(sp: SearchDict, key: string, def: string): (r: string)
    ensures Lookup(sp, key).One? ==> r == Lookup(sp, key).s
    ensures Lookup(sp, key).Many? && Lookup(sp, key).all != [] ==> r == Lookup(sp, key).all[0]
    ensures Lookup(sp, key) == Many([]) || Lookup(sp, key) == Undefined ==> r == def
  {
    match Lookup(sp, key)
    case One(s) => s
    case Many(all) => if all == [] then def else all[0]
    case Undefined => def
  }

  // ---------- parseInt and String(n) ----------

  function DigitChar(d: nat): (c: char)
    requires d < 10
    ensures IsDigit(c) && c as int - '0' as int == d
  {
    ('0' as int + d) as char
  }

  /** The longest prefix made of decimal digits. */
  function DigitPrefix(s: string): (r: string)
    ensures |r| <= |s| && r == s[..|r|]
    ensures forall i | 0 <= i < |r| :: IsDigit(r[i])
    ensures |r| == |s| || !IsDigit(s[|r|])
  {
    if s != [] && IsDigit(s[0]) then [s[0]] + DigitPrefix(s[1..]) else []
  }

  /** The value of a string of decimal digits. */
  function DigitsValue(d: string): nat {
    if d == [] then 0
    else
      var last := d[|d| - 1] as int - '0' as int;
      DigitsValue(d[..|d| - 1]) * 10 + (if 0 <= last < 10 then last else 0)
  }

  /** `parseInt(s, 10)`: leading white space is skipped, then an optional
      sign, then the longest run of digits; no digit at all gives `NaN`
      (here `None`). */
  function ParseInt(s: string): Option<int> {
    ParseSigned(TrimStart(s))
  }

  /** `parseInt` after the leading white space. */
  function ParseSigned(t: string): Option<int> {
    var signed := t != [] && (t[0] == '-' || t[0] == '+');
    var digits := DigitPrefix(if signed then t[1..] else t);
    var value: int := DigitsValue(digits);
    if digits == [] then None
    else if signed && t[0] == '-' then Some(-value)
    else Some(value)
  }

  /** `String(n)` for a natural number: its decimal digits, no leading zero. */
  function NatToString(n: nat): (r: string)
    ensures |r| >= 1 && (forall i | 0 <= i < |r| :: IsDigit(r[i]))
    ensures r[0] == '0' ==> n == 0
  {
    if n < 10 then [DigitChar(n)] else NatToString(n / 10) + [DigitChar(n % 10)]
  }

  /** `String(n)` for an integer. */
  function IntToString(n: int): (r: string)
    ensures |r| >= 1
  {
    if n < 0 then "-" + NatToString(-n) else NatToString(n)
  }

  /** `getInt`: the parsed value when it is a positive number, the default
      otherwise; with a positive default the result is always positive. */
  function GetInt(sp: SearchDict, key: string, def: int): (r: int)
    ensures def >= 1 ==> r >= 1
    ensures r == def || (r >= 1 && ParseInt(GetStr(sp, key, IntToString(def))) == Some(r))
    ensures var n := ParseInt(GetStr(sp, key, IntToString(def))); n.Some? && n.value > 0 ==> r == n.value
  {
    var n := ParseInt(GetStr(sp, key, IntToString(def)));
    if n.Some? && n.value > 0 then n.value else def
  }

  lemma {:induction false} DigitsOfNat(n: nat)
    ensures DigitsValue(NatToString(n)) == n
  {
    var s := NatToString(n);
    if n >= 10 {
      DigitsOfNat(n / 10);
      assert s[..|s| - 1] == NatToString(n / 10);
    }
  }

  lemma {:induction false} DigitPrefixAll(s: string)
    requires forall i | 0 <= i < |s| :: IsDigit(s[i])
    ensures DigitPrefix(s) == s
  {
    if s != [] {
      DigitPrefixAll(s[1..]);
    }
  }

  /** `parseInt(String(n), 10) == n`: a number written into the query string
      reads back as itself. */
  lemma ParseIntToString(n: int)
    ensures ParseInt(IntToString(n)) == Some(n)
  {
    if n >= 0 {
      ParseIntIgnoresTail(n, []);
      assert NatToString(n) + [] == NatToString(n);
    } else {
      var d := NatToString(-n);
      ParseIntNegative(d);
      DigitPrefixAll(d);
      DigitsOfNat(-n);
    }
  }

  /** Text starting with a digit parses as its leading digits. */
  lemma ParseIntUnsigned(s: string)
    requires s != [] && IsDigit(s[0])
    ensures ParseInt(s) == Some(DigitsValue(DigitPrefix(s)))
  {
    assert !IsJsSpace(s[0]) && s[0] != '-' && s[0] != '+';
    TrimStartKeeps(s);
    assert DigitPrefix(s) != [];
  }

  /** Without a digit `parseInt` gives `NaN`, and a negative result needs a
      minus sign. */
  lemma ParseIntNeedsDigit(s: string)
    ensures ParseInt(s).Some? ==> exists i | 0 <= i < |s| :: IsDigit(s[i])
    ensures ParseInt(s).Some? && ParseInt(s).value < 0 ==> exists i | 0 <= i < |s| :: s[i] == '-'
  {
    var t := TrimStart(s);
    var k := |s| - |t|;
    if ParseSigned(t).Some? {
      assert t == s[k..];
      var j := if t[0] == '-' || t[0] == '+' then k + 1 else k;
      assert IsDigit(s[j]);
      if ParseSigned(t).value < 0 {
        assert s[k] == '-';
      }
    }
  }

  /** A minus sign before a digit negates the value of the digits. */
  lemma ParseIntNegative(d: string)
    requires d != [] && IsDigit(d[0])
    ensures ParseInt("-" + d) == Some(-(DigitsValue(DigitPrefix(d)) as int))
  {
    var s := "-" + d;
    var digits := DigitPrefix(d);
    assert TrimStart(s) == s by {
      assert s[0] == '-';
      TrimStartKeeps(s);
    }
    assert ParseSigned(s) == Some(-(DigitsValue(digits) as int)) by {
      assert s[0] == '-' && s[1..] == d;
      ParseSignedMinus(s, digits);
    }
  }

  lemma ParseSignedMinus(t: string, digits: string)
    requires t != [] && t[0] == '-' && digits == DigitPrefix(t[1..]) && digits != []
    ensures ParseSigned(t) == Some(-(DigitsValue(digits) as int))
  {
  }

  /** Digits followed by anything that is not a digit parse as the digits:
      `parseInt("2abc") == 2`. */
  lemma ParseIntIgnoresTail(n: nat, tail: string)
    requires tail == [] || !IsDigit(tail[0])
    ensures ParseInt(NatToString(n) + tail) == Some(n)
  {
    var d := NatToString(n);
    var s := d + tail;
    assert s[0] == d[0] && IsDigit(s[0]);
    ParseIntUnsigned(s);
    DigitPrefixAppend(d, tail);
    DigitsOfNat(n);
  }

  lemma {:induction false} DigitPrefixAppend(d: string, tail: string)
    requires forall i | 0 <= i < |d| :: IsDigit(d[i])
    requires tail == [] || !IsDigit(tail[0])
    ensures DigitPrefix(d + tail) == d
  {
    if d != [] {
      DigitPrefixAppend(d[1..], tail);
      assert (d + tail)[1..] == d[1..] + tail;
    }
  }

  /** A value of the key that is no positive number falls back to the
      default: absent, empty, text, zero, negative. */
  lemma GetIntFallsBack(sp: SearchDict, key: string, def: int)
    requires def >= 1
    requires match ParseInt(GetStr(sp, key, IntToString(def))) case None => true case Some(n) => n <= 0
    ensures GetInt(sp, key, def) == def
  {
  }

  /** With the key absent the default is used. */
  lemma GetIntAbsent(sp: SearchDict, key: string, def: int)
    requires def >= 1 && Lookup(sp, key) == Undefined
    ensures GetInt(sp, key, def) == def
  {
    ParseIntToString(def);
  }

  /** A positive number given for the key is read back. */
  lemma GetIntReadsBack(sp: SearchDict, key: string, def: int, n: int)
    requires n >= 1 && Lookup(sp, key) == One(IntToString(n))
    ensures GetInt(sp, key, def) == n
  {
    ParseIntToString(n);
  }

  // ---------- URLSearchParams ----------

  /** `p.get(k)`: the value of the first pair named `k`. */
  function ParamGet(p: Params, k: string): (r: Option<string>)
    ensures r.Some? ==> (k, r.value) in p
    ensures r.None? <==> forall e | e in p :: e.0 != k
  {
    if p == [] then None else if p[0].0 == k then Some(p[0].1) else ParamGet(p[1..], k)
  }

  /** `p.delete(k)`: every pair named `k` goes. */
  function ParamDelete(p: Params, k: string): (r: Params)
    ensures forall e :: e in r <==> e in p && e.0 != k
  {
    Filter(p, (e: (string, string)) => e.0 != k)
  }

  /** `p.set(k, v)`: the first pair named `k` takes the value `v` and the
      later ones go; with no such pair, `(k, v)` is appended. */
  function ParamSet(p: Params, k: string, v: string): (r: Params)
    ensures |r| <= |p| + 1
  {
    if p == [] then [(k, v)]
    else if p[0].0 == k then [(k, v)] + ParamDelete(p[1..], k)
    else [p[0]] + ParamSet(p[1..], k, v)
  }

  lemma {:induction false} GetAfterDelete(p: Params, k: string, k2: string)
    ensures ParamGet(ParamDelete(p, k), k2) == if k2 == k then None else ParamGet(p, k2)
  {
    if p != [] {
      GetAfterDelete(p[1..], k, k2);
    }
  }

  lemma {:induction false} GetAfterSet(p: Params, k: string, v: string, k2: string)
    ensures ParamGet(ParamSet(p, k, v), k2) == if k2 == k then Some(v) else ParamGet(p, k2)
  {
    if p != [] {
      if p[0].0 == k {
        GetAfterDelete(p[1..], k, k2);
      } else {
        GetAfterSet(p[1..], k, v, k2);
      }
    }
  }

  lemma DeleteKeepsUnique(p: Params, k: string)
    requires KeysUnique(p)
    ensures KeysUnique(ParamDelete(p, k))
  {
    FilterKeepsKeysUnique(p, (e: (string, string)) => e.0 != k);
  }

  lemma {:induction false} FilterKeepsKeysUnique(p: Params, keep: ((string, string)) -> bool)
    requires KeysUnique(p)
    ensures KeysUnique(Filter(p, keep))
  {
    if p != [] {
      var rest := p[1..];
      assert KeysUnique(rest) by {
        forall i, j | 0 <= i < j < |rest| ensures rest[i].0 != rest[j].0 {
          assert rest[i] == p[i + 1] && rest[j] == p[j + 1];
        }
      }
      FilterKeepsKeysUnique(rest, keep);
      var f := Filter(rest, keep);
      if keep(p[0]) {
        assert Filter(p, keep) == [p[0]] + f;
        forall e | e in f ensures e.0 != p[0].0 {
          var m :| 0 <= m < |rest| && rest[m] == e;
          assert rest[m] == p[m + 1];
        }
      }
    }
  }

  lemma {:induction false} SetKeepsUnique(p: Params, k: string, v: string)
    requires KeysUnique(p)
    ensures KeysUnique(ParamSet(p, k, v))
  {
    if p != [] {
      var rest := p[1..];
      TailUnique(p);
      if p[0].0 == k {
        DeleteKeepsUnique(rest, k);
        ConsUnique((k, v), ParamDelete(rest, k));
      } else {
        SetKeepsUnique(rest, k, v);
        var s := ParamSet(rest, k, v);
        forall e | e in s ensures e.0 != p[0].0 {
          SetMembers(rest, k, v, e);
          if e != (k, v) {
            var m :| 0 <= m < |rest| && rest[m] == e;
            assert rest[m] == p[m + 1];
          }
        }
        ConsUnique(p[0], s);
      }
    }
  }

  lemma TailUnique<V>(p: seq<(string, V)>)
    requires p != [] && KeysUnique(p)
    ensures KeysUnique(p[1..])
  {
    var rest := p[1..];
    forall i, j | 0 <= i < j < |rest| ensures rest[i].0 != rest[j].0 {
      assert rest[i] == p[i + 1] && rest[j] == p[j + 1];
    }
  }

  lemma ConsUnique<V>(x: (string, V), s: seq<(string, V)>)
    requires KeysUnique(s) && forall e | e in s :: e.0 != x.0
    ensures KeysUnique([x] + s)
  {
    var r := [x] + s;
    forall i, j | 0 <= i < j < |r| ensures r[i].0 != r[j].0 {
      assert r[j] == s[j - 1];
      if i > 0 {
        assert r[i] == s[i - 1];
      }
    }
  }

  /** Every pair after `set` was there before or is the new one. */
  lemma {:induction false} SetMembers(p: Params, k: string, v: string, e: (string, string))
    requires e in ParamSet(p, k, v)
    ensures e == (k, v) || e in p
  {
    if p != [] && p[0].0 != k && e != p[0] {
      SetMembers(p[1..], k, v, e);
    }
  }

  // ---------- cloneParams and withParams ----------

  /** What `cloneParams` keeps of one value: the first element of an array
      (`String(undefined)` for an empty one), a string as it is, nothing
      for `undefined`. */
  function Cloned(v: SearchValue): Option<string> {
    match v
    case One(s) => Some(s)
    case Many(all) => Some(if all == [] then "undefined" else all[0])
    case Undefined => None
  }

  /** The parameters after `p.set` for each entry of `sp` in turn. */
  function CloneOf(sp: SearchDict): Params {
    if sp == [] then []
    else
      var p := CloneOf(sp[..|sp| - 1]);
      var e := sp[|sp| - 1];
      match Cloned(e.1)
      case None => p
      case Some(v) => ParamSet(p, e.0, v)
  }

  /** A value of the `withParams` patch: a string, a number or `undefined`. */
  datatype PatchValue = PStr(s: string) | PNum(n: int) | PUndefined

  /** The parameters after applying each patch entry in turn: `undefined`
      deletes the key, anything else sets it to its string form. */
  function Patched(p: Params, patch: seq<(string, PatchValue)>): Params {
    if patch == [] then p
    else
      var q := Patched(p, patch[..|patch| - 1]);
      var e := patch[|patch| - 1];
      match e.1
      case PUndefined => ParamDelete(q, e.0)
      case PStr(v) => ParamSet(q, e.0, v)
      case PNum(n) => ParamSet(q, e.0, IntToString(n))
  }

  /** The string form a patch value is set to, or `None` for a deletion. */
  function PatchText(v: PatchValue): Option<string> {
    match v
    case PUndefined => None
    case PStr(s) => Some(s)
    case PNum(n) => Some(IntToString(n))
  }

  /** The value a patch gives a key: `None` when the patch does not name it. */
  function PatchLookup(patch: seq<(string, PatchValue)>, k: string): Option<PatchValue> {
    if patch == [] then None
    else if patch[0].0 == k then Some(patch[0].1)
    else PatchLookup(patch[1..], k)
  }

  /** The query of `withParams(sp, patch)` (the page path in front of it is
      fixed). */
  function WithParamsOf(sp: SearchDict, patch: seq<(string, PatchValue)>): Params {
    Patched(CloneOf(sp), patch)
  }

  /** With distinct keys, the last entry of a dictionary is looked up as
      itself and the others as in the dictionary without it. */
  lemma {:induction false} LookupLast(sp: SearchDict, k: string)
    requires sp != [] && KeysUnique(sp)
    ensures Lookup(sp, k) == if sp[|sp| - 1].0 == k then sp[|sp| - 1].1 else Lookup(sp[..|sp| - 1], k)
  {
    if |sp| > 1 {
      TailUnique(sp);
      LookupLast(sp[1..], k);
      assert sp[1..][..|sp| - 2] == sp[..|sp| - 1][1..];
      assert sp[0].0 != sp[|sp| - 1].0;
    }
  }

  lemma {:induction false} PatchLookupLast(patch: seq<(string, PatchValue)>, k: string)
    requires patch != [] && KeysUnique(patch)
    ensures PatchLookup(patch, k) ==
              if patch[|patch| - 1].0 == k then Some(patch[|patch| - 1].1) else PatchLookup(patch[..|patch| - 1], k)
  {
    if |patch| > 1 {
      TailUnique(patch);
      PatchLookupLast(patch[1..], k);
      assert patch[1..][..|patch| - 2] == patch[..|patch| - 1][1..];
      assert patch[0].0 != patch[|patch| - 1].0;
    }
  }

  lemma PrefixUnique<V>(p: seq<(string, V)>, n: nat)
    requires n <= |p| && KeysUnique(p)
    ensures KeysUnique(p[..n])
  {
    var q := p[..n];
    forall i, j | 0 <= i < j < |q| ensures q[i].0 != q[j].0 {
      assert q[i] == p[i] && q[j] == p[j];
    }
  }

  /** `cloneParams` keeps every key once, with its cloned value. */
  lemma {:induction false} CloneGet(sp: SearchDict, k: string)
    requires KeysUnique(sp)
    ensures ParamGet(CloneOf(sp), k) == Cloned(Lookup(sp, k))
  {
    if sp != [] {
      var init := sp[..|sp| - 1];
      PrefixUnique(sp, |sp| - 1);
      CloneGet(init, k);
      LookupLast(sp, k);
      var e := sp[|sp| - 1];
      if Cloned(e.1).Some? {
        GetAfterSet(CloneOf(init), e.0, Cloned(e.1).value, k);
      }
    }
  }

  lemma {:induction false} CloneUnique(sp: SearchDict)
    ensures KeysUnique(CloneOf(sp))
  {
    if sp != [] {
      CloneUnique(sp[..|sp| - 1]);
      var e := sp[|sp| - 1];
      if Cloned(e.1).Some? {
        SetKeepsUnique(CloneOf(sp[..|sp| - 1]), e.0, Cloned(e.1).value);
      }
    }
  }

  /** After the patch, a key it names has the patch's value (or is gone),
      and every other key keeps the value it had. */
  lemma {:induction false} PatchedGet(p: Params, patch: seq<(string, PatchValue)>, k: string)
    requires KeysUnique(patch)
    ensures ParamGet(Patched(p, patch), k) ==
              match PatchLookup(patch, k) case Some(v) => PatchText(v) case None => ParamGet(p, k)
  {
    if patch != [] {
      var init := patch[..|patch| - 1];
      PrefixUnique(patch, |patch| - 1);
      PatchedGet(p, init, k);
      PatchLookupLast(patch, k);
      var q := Patched(p, init);
      var e := patch[|patch| - 1];
      match e.1
      case PUndefined => GetAfterDelete(q, e.0, k);
      case PStr(v) => GetAfterSet(q, e.0, v, k);
      case PNum(n) => GetAfterSet(q, e.0, IntToString(n), k);
    }
  }

  lemma {:induction false} PatchedUnique(p: Params, patch: seq<(string, PatchValue)>)
    requires KeysUnique(p)
    ensures KeysUnique(Patched(p, patch))
  {
    if patch != [] {
      var init := patch[..|patch| - 1];
      PatchedUnique(p, init);
      var q := Patched(p, init);
      var e := patch[|patch| - 1];
      match e.1
      case PUndefined => DeleteKeepsUnique(q, e.0);
      case PStr(v) => SetKeepsUnique(q, e.0, v);
      case PNum(n) => SetKeepsUnique(q, e.0, IntToString(n));
    }
  }

  /** `cloneParams`: a fresh `URLSearchParams` with `set` called for every
      entry that is a string or an array. */
  method CloneParams(sp: SearchDict) returns (p: Params)
    ensures p == CloneOf(sp)
    ensures KeysUnique(p)
    ensures KeysUnique(sp) ==> forall k: string :: ParamGet(p, k) == Cloned(Lookup(sp, k))
  {
    p := [];
    for i := 0 to |sp|
      invariant p == CloneOf(sp[..i])
    {
      assert sp[..i + 1][..i] == sp[..i];
      var (k, v) := sp[i];
      match v {
        case Many(all) =>
          p := ParamSet(p, k, if all == [] then "undefined" else all[0]);
        case One(s) =>
          p := ParamSet(p, k, s);
        case Undefined =>
      }
    }
    assert sp[..|sp|] == sp;
    CloneUnique(sp);
    if KeysUnique(sp) {
      forall k: string ensures ParamGet(p, k) == Cloned(Lookup(sp, k)) {
        CloneGet(sp, k);
      }
    }
  }

  /** `withParams`: the cloned parameters with the patch applied; the page
      path `/admin/safety?` in front of them is fixed. */
  method WithParams(sp: SearchDict, patch: seq<(string, PatchValue)>) returns (p: Params)
    ensures p == WithParamsOf(sp, patch)
    ensures KeysUnique(p)
    ensures KeysUnique(sp) && KeysUnique(patch) ==>
              forall k: string :: ParamGet(p, k) ==
                match PatchLookup(patch, k) case Some(v) => PatchText(v) case None => Cloned(Lookup(sp, k))
  {
    var base := CloneParams(sp);
    p := base;
    for i := 0 to |patch|
      invariant p == Patched(base, patch[..i])
    {
      assert patch[..i + 1][..i] == patch[..i];
      var (k, v) := patch[i];
      match v {
        case PUndefined =>
          p := ParamDelete(p, k);
        case PStr(s) =>
          p := ParamSet(p, k, s);
        case PNum(n) =>
          p := ParamSet(p, k, IntToString(n));
      }
    }
    assert patch[..|patch|] == patch;
    PatchedUnique(base, patch);
    if KeysUnique(sp) && KeysUnique(patch) {
      forall k: string ensures ParamGet(p, k) ==
                match PatchLookup(patch, k) case Some(v) => PatchText(v) case None => Cloned(Lookup(sp, k)) {
        PatchedGet(base, patch, k);
        CloneGet(sp, k);
      }
    }
  }

  // ---------- pages ----------

  /** `from = (page - 1) * size`. */
  function PageFrom(page: int, size: int): (from: int)
    requires page >= 1 && size >= 1
    ensures from >= 0
  {
    (page - 1) * size
  }

  /** `to = from + size - 1`, inclusive. */
  function PageTo(page: int, size: int): int
    requires page >= 1 && size >= 1
  {
    PageFrom(page, size) + size - 1
  }

  /** Each page spans exactly `size` rows, the first starts at 0, and the
      next page starts right after this one ends. */
  lemma PageSpan(page: int, size: int)
    requires page >= 1 && size >= 1
    ensures PageFrom(page, size) >= 0 && PageFrom(1, size) == 0
    ensures PageTo(page, size) - PageFrom(page, size) + 1 == size
    ensures PageFrom(page + 1, size) == PageTo(page, size) + 1
  {
    assert PageFrom(page + 1, size) == page * size;
  }

  /** Each row index lies on exactly one page. */
  lemma OnePagePerRow(i: nat, size: int) returns (page: int)
    requires size >= 1
    ensures page >= 1 && PageFrom(page, size) <= i <= PageTo(page, size)
    ensures forall q | q >= 1 && PageFrom(q, size) <= i <= PageTo(q, size) :: q == page
  {
    page := i / size + 1;
    assert PageFrom(page, size) == (i / size) * size;
    forall q | q >= 1 && PageFrom(q, size) <= i <= PageTo(q, size) ensures q == page {
      if q < page {
        MulMonotone(q, page - 1, size);
      } else if q > page {
        MulMonotone(page, q - 1, size);
      }
    }
  }

  lemma MulMonotone(a: int, b: int, size: int)
    requires a <= b && size >= 1
    ensures a * size <= b * size
  {
  }

  /** `.range(from, to)` on the ordered rows: those at positions `from` to
      `to`, as many as exist. */
  function Range<T>(rows: seq<T>, from: int, to: int): (r: seq<T>)
    requires 0 <= from <= to + 1
    ensures |r| <= to + 1 - from
    ensures |r| == 0 || from + |r| <= |rows|
    ensures forall k | 0 <= k < |r| :: r[k] == rows[from + k]
    ensures |r| == to + 1 - from || from + |r| >= |rows|
  {
    if from >= |rows| then [] else rows[from..if to + 1 < |rows| then to + 1 else |rows|]
  }

  /** A filter value of "all" selects every row; any other value only the
      rows with that status or kind. */
  predicate Selected(filter: string, value: string) {
    filter == "all" || value == filter
  }

  /** One listing: the selected rows, newest first, the `size` rows from
      position `from` on (`.order(created_at desc).range(from, to)`). */
  function Listing<T>(rows: seq<T>, keep: T -> bool, from: int, size: int): (r: seq<T>)
    requires from >= 0 && size >= 1
    ensures |r| <= size
    ensures forall x | x in r :: x in rows && keep(x)
    ensures var n := |Filter(rows, keep)| - from;
            |r| == if n <= 0 then 0 else if n < size then n else size
    ensures forall k | 0 <= k < |r| :: r[k] == Reverse(Filter(rows, keep))[from + k]
  {
    var f := Filter(rows, keep);
    var r := Range(Reverse(f), from, from + size - 1);
    RangeLength(|f|, from, size, |r|);
    assert forall x | x in r :: x in Reverse(f);
    r
  }

  /** The length facts of `Range` give the length of a page. */
  lemma RangeLength(total: int, from: int, size: int, len: int)
    requires 0 <= from && 1 <= size && 0 <= len <= size
    requires len == 0 || from + len <= total
    requires len == size || from + len >= total
    ensures var n := total - from; len == if n <= 0 then 0 else if n < size then n else size
  {
  }

  /** Two consecutive pages are adjacent: together they are the rows of the
      range that covers both, and they share no position. */
  lemma PagesAdjacent<T>(rows: seq<T>, page: int, size: int)
    requires page >= 1 && size >= 1
    ensures PageTo(page + 1, size) + 1 - PageFrom(page, size) == 2 * size
    ensures Range(rows, PageFrom(page, size), PageTo(page, size)) +
            Range(rows, PageFrom(page + 1, size), PageTo(page + 1, size)) ==
            Range(rows, PageFrom(page, size), PageTo(page + 1, size))
  {
    PageSpan(page, size);
    PageSpan(page + 1, size);
  }

  /** A page shorter than `size` is the last: the next page is empty. So the
      Next link, shown only for a full page, is never hidden while rows
      remain. */
  lemma ShortPageIsLast<T>(rows: seq<T>, page: int, size: int)
    requires page >= 1 && size >= 1
    requires |Range(rows, PageFrom(page, size), PageTo(page, size))| < size
    ensures Range(rows, PageFrom(page + 1, size), PageTo(page + 1, size)) == []
  {
    PageSpan(page, size);
    PageSpan(page + 1, size);
  }

  /** The converse does not hold: when the rows end exactly at a page
      boundary, the full last page still shows Next, onto an empty page. */
  lemma FullLastPageShowsNext(rows: seq<int>)
    requires |rows| == 10
    ensures |Range(rows, PageFrom(1, 10), PageTo(1, 10))| == 10
    ensures Range(rows, PageFrom(2, 10), PageTo(2, 10)) == []
  {
  }

  // ---------- the page ----------

  /** One section of the dashboard: the query's error message, or the rows
      of the page with its Prev and Next links (`None` where the link is
      disabled, `"#"`). */
  datatype Section<T> =
    | Failed(message: string)
    | Listed(rows: seq<T>, page: int, size: int, prev: Option<Params>, next: Option<Params>)

  /** One section: `page` and `size` read from `pageKey` and `sizeKey`
      (defaults 1 and 10), the listing, and the links that change only
      `pageKey`. */
  function SectionOf<T>(sp: SearchDict, rows: seq<T>, keep: T -> bool, pageKey: string, sizeKey: string,
                        error: Option<string>): (r: Section<T>)
    ensures r.Failed? <==> error.Some?
    ensures r.Listed? ==>
              r.page >= 1 && r.size >= 1 && |r.rows| <= r.size &&
              (forall x | x in r.rows :: x in rows && keep(x)) &&
              (r.prev.Some? <==> r.page > 1) && (r.next.Some? <==> |r.rows| == r.size)
    ensures r.Listed? ==>
              r.page == GetInt(sp, pageKey, 1) && r.size == GetInt(sp, sizeKey, 10) &&
              r.rows == Listing(rows, keep, PageFrom(r.page, r.size), r.size)
    ensures r.Listed? && r.prev.Some? ==> r.prev.value == WithParamsOf(sp, [(pageKey, PNum(r.page - 1))])
    ensures r.Listed? && r.next.Some? ==> r.next.value == WithParamsOf(sp, [(pageKey, PNum(r.page + 1))])
  {
    if error.Some? then Failed(error.value) else ListedSection(sp, rows, keep, pageKey, sizeKey)
  }

  /** The section of a query that succeeded. */
  function ListedSection<T>(sp: SearchDict, rows: seq<T>, keep: T -> bool, pageKey: string, sizeKey: string): (r: Section<T>)
    ensures r.Listed? && r.page == GetInt(sp, pageKey, 1) && r.size == GetInt(sp, sizeKey, 10)
    ensures r.Listed? && r.page >= 1 && r.size >= 1
    ensures r.Listed? && r.rows == Listing(rows, keep, PageFrom(r.page, r.size), r.size)
    ensures r.Listed? && (r.prev.Some? <==> r.page > 1) && (r.next.Some? <==> |r.rows| == r.size)
    ensures r.Listed? && r.prev.Some? ==> r.prev.value == WithParamsOf(sp, [(pageKey, PNum(r.page - 1))])
    ensures r.Listed? && r.next.Some? ==> r.next.value == WithParamsOf(sp, [(pageKey, PNum(r.page + 1))])
  {
    var page := GetInt(sp, pageKey, 1);
    var size := GetInt(sp, sizeKey, 10);
    var listed := Listing(rows, keep, PageFrom(page, size), size);
    var links := Links(sp, pageKey, page, |listed| == size);
    Listed(listed, page, size, links.0, links.1)
  }

  /** The Prev and Next links of a page: each keeps the parameters and moves
      `pageKey` one page back or on. */
  function Links(sp: SearchDict, pageKey: string, page: int, full: bool): (r: (Option<Params>, Option<Params>))
    ensures r.0.Some? <==> page > 1
    ensures r.1.Some? <==> full
    ensures r.0.Some? ==> r.0.value == WithParamsOf(sp, [(pageKey, PNum(page - 1))])
    ensures r.1.Some? ==> r.1.value == WithParamsOf(sp, [(pageKey, PNum(page + 1))])
  {
    (if page > 1 then Some(WithParamsOf(sp, [(pageKey, PNum(page - 1))])) else None,
     if full then Some(WithParamsOf(sp, [(pageKey, PNum(page + 1))])) else None)
  }

  /** What the page renders. */
  datatype View =
    | NotAuthorized
    | Dashboard(panics: Section<PanicEvent>, reports: Section<UserReport>, checkins: Section<CheckIn>)

  /** The status and kind filters in force: `p_status` and `r_status`
      default to "open", `c_kind` to "all". */
  function PanicFilter(sp: SearchDict): string { GetStr(sp, "p_status", "open") }
  function ReportFilter(sp: SearchDict): string { GetStr(sp, "r_status", "open") }
  function CheckinFilter(sp: SearchDict): string { GetStr(sp, "c_kind", "all") }

  /** The rows each filter value selects. */
  function PanicKeep(filter: string): PanicEvent -> bool { (e: PanicEvent) => Selected(filter, e.status) }
  function ReportKeep(filter: string): UserReport -> bool { (e: UserReport) => Selected(filter, e.status) }
  function CheckinKeep(filter: string): CheckIn -> bool {
    (c: CheckIn) => Selected(filter, SafetyCheckin.KindName(c.kind))
  }

  /** The page for `user`. The three tables are read in full by the admin
      client; each query fails with its own error. */
  function Page(user: Option<Caller>, adminEmails: Option<string>, sp: SearchDict,
                panics: seq<PanicEvent>, reports: seq<UserReport>, checkins: seq<CheckIn>,
                panicsError: Option<string>, reportsError: Option<string>, checkinsError: Option<string>): (r: View)
    ensures r.NotAuthorized? <==> user.None? || !IsAdminEmail(user.value.email, adminEmails)
    ensures r.Dashboard? ==>
              (r.panics.Listed? <==> panicsError.None?) &&
              (r.reports.Listed? <==> reportsError.None?) &&
              (r.checkins.Listed? <==> checkinsError.None?)
    ensures r.Dashboard? && r.panics.Listed? ==>
              forall e | e in r.panics.rows :: e in panics && Selected(PanicFilter(sp), e.status)
    ensures r.Dashboard? && r.reports.Listed? ==>
              forall e | e in r.reports.rows :: e in reports && Selected(ReportFilter(sp), e.status)
    ensures r.Dashboard? && r.checkins.Listed? ==>
              forall c | c in r.checkins.rows ::
                c in checkins && Selected(CheckinFilter(sp), SafetyCheckin.KindName(c.kind))
    ensures r.Dashboard? ==>
              r.panics == SectionOf(sp, panics, PanicKeep(PanicFilter(sp)), "p_page", "p_size", panicsError) &&
              r.reports == SectionOf(sp, reports, ReportKeep(ReportFilter(sp)), "r_page", "r_size", reportsError) &&
              r.checkins == SectionOf(sp, checkins, CheckinKeep(CheckinFilter(sp)), "c_page", "c_size", checkinsError)
  {
    if user.None? || !IsAdminEmail(user.value.email, adminEmails) then NotAuthorized
    else
      Dashboard(
        SectionOf(sp, panics, PanicKeep(PanicFilter(sp)), "p_page", "p_size", panicsError),
        SectionOf(sp, reports, ReportKeep(ReportFilter(sp)), "r_page", "r_size", reportsError),
        SectionOf(sp, checkins, CheckinKeep(CheckinFilter(sp)), "c_page", "c_size", checkinsError))
  }

  /** With an empty query string an admin sees open panics, open reports and
      every check-in, each on page 1 of 10 rows. */
  lemma DefaultView(user: Caller, adminEmails: Option<string>,
                    panics: seq<PanicEvent>, reports: seq<UserReport>, checkins: seq<CheckIn>)
    requires IsAdminEmail(user.email, adminEmails)
    ensures PanicFilter([]) == "open" && ReportFilter([]) == "open" && CheckinFilter([]) == "all"
    ensures var v := Page(Some(user), adminEmails, [], panics, reports, checkins, None, None, None);
            v.Dashboard? &&
            v.panics.Listed? && v.panics.page == 1 && v.panics.size == 10 && v.panics.prev.None? &&
            v.reports.Listed? && v.reports.page == 1 && v.reports.size == 10 && v.reports.prev.None? &&
            v.checkins.Listed? && v.checkins.page == 1 && v.checkins.size == 10 && v.checkins.prev.None?
    ensures var v := Page(Some(user), adminEmails, [], panics, reports, checkins, None, None, None);
            v.panics.rows == Listing(panics, PanicKeep("open"), 0, 10) &&
            v.reports.rows == Listing(reports, ReportKeep("open"), 0, 10) &&
            v.checkins.rows == Listing(checkins, (c: CheckIn) => true, 0, 10)
  {
    assert PanicFilter([]) == "open" && ReportFilter([]) == "open" && CheckinFilter([]) == "all";
    var v := Page(Some(user), adminEmails, [], panics, reports, checkins, None, None, None);
    var ps := SectionOf([], panics, PanicKeep("open"), "p_page", "p_size", None);
    var rs := SectionOf([], reports, ReportKeep("open"), "r_page", "r_size", None);
    var cs := SectionOf([], checkins, CheckinKeep("all"), "c_page", "c_size", None);
    assert v.Dashboard? && v.panics == ps && v.reports == rs && v.checkins == cs;
    DefaultSection(panics, PanicKeep("open"), "p_page", "p_size");
    DefaultSection(reports, ReportKeep("open"), "r_page", "r_size");
    DefaultSection(checkins, CheckinKeep("all"), "c_page", "c_size");
    assert cs.rows == Listing(checkins, (c: CheckIn) => true, 0, 10) by {
      FilterSame(checkins, CheckinKeep("all"), (c: CheckIn) => true);
    }
  }

  /** Without parameters a section shows page 1 of 10 rows and no Prev link. */
  lemma DefaultSection<T>(rows: seq<T>, keep: T -> bool, pageKey: string, sizeKey: string)
    ensures var s := SectionOf([], rows, keep, pageKey, sizeKey, None);
            s.Listed? && s.page == 1 && s.size == 10 && s.prev.None? && s.rows == Listing(rows, keep, 0, 10)
  {
    GetIntAbsent([], pageKey, 1);
    GetIntAbsent([], sizeKey, 10);
  }

  lemma {:induction false} FilterSame<T>(rows: seq<T>, f: T -> bool, g: T -> bool)
    requires forall x | x in rows :: f(x) == g(x)
    ensures Filter(rows, f) == Filter(rows, g)
  {
    if rows != [] {
      FilterSame(rows[1..], f, g);
    }
  }

  /** The query as Next.js hands it to the page after following a link:
      one string per parameter. */
  function ToDict(p: Params): (r: SearchDict)
    ensures |r| == |p|
  {
    seq(|p|, i requires 0 <= i < |p| => (p[i].0, One(p[i].1)))
  }

  lemma {:induction false} LookupToDict(p: Params, k: string)
    ensures Lookup(ToDict(p), k) == match ParamGet(p, k) case Some(v) => One(v) case None => Undefined
  {
    if p != [] {
      LookupToDict(p[1..], k);
      assert ToDict(p)[1..] == ToDict(p[1..]);
    }
  }

  /** Following a page link shows the page it names, and every other
      parameter reads as before: a link changes only its own page number. */
  lemma LinkRoundTrip(sp: SearchDict, pageKey: string, n: int, k: string, def: string)
    requires KeysUnique(sp) && n >= 1
    requires k != pageKey && Lookup(sp, k) != Many([])
    ensures GetInt(ToDict(WithParamsOf(sp, [(pageKey, PNum(n))])), pageKey, 1) == n
    ensures GetStr(ToDict(WithParamsOf(sp, [(pageKey, PNum(n))])), k, def) == GetStr(sp, k, def)
  {
    var patch := [(pageKey, PNum(n))];
    var link := WithParamsOf(sp, patch);
    PatchedGet(CloneOf(sp), patch, pageKey);
    PatchedGet(CloneOf(sp), patch, k);
    CloneGet(sp, k);
    LookupToDict(link, pageKey);
    LookupToDict(link, k);
    GetIntReadsBack(ToDict(link), pageKey, 1, n);
  }
}
