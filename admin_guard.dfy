/** `isAdminEmail`: membership of an email in the comma-separated
    `ADMIN_EMAILS` allow-list, ignoring case and surrounding white space. */
module AdminGuard {
  import opened Common

  /** The characters `String.prototype.trim` removes: ECMAScript white space
      (tab, vertical tab, form feed, space, no-break space, the byte order
      mark and the space separators) and line terminators. */
  predicate IsJsSpace(c: char) {
    c == '\t' || c == '\n' || c == '\U{000B}' || c == '\U{000C}' || c == '\r' || c == ' ' ||
    c == '\U{00A0}' || c == '\U{1680}' || ('\U{2000}' <= c <= '\U{200A}') ||
    c == '\U{2028}' || c == '\U{2029}' || c == '\U{202F}' || c == '\U{205F}' ||
    c == '\U{3000}' || c == '\U{FEFF}'
  }

  predicate AllSpace(s: string) {
    forall i | 0 <= i < |s| :: IsJsSpace(s[i])
  }

  function TrimStart(s: string): (r: string)
    ensures r == [] || !IsJsSpace(r[0])
    ensures |r| <= |s| && r == s[|s| - |r|..] && AllSpace(s[..|s| - |r|])
  {
    if s != [] && IsJsSpace(s[0]) then
      var r := TrimStart(s[1..]);
      assert s[..|s| - |r|] == [s[0]] + s[1..][..|s| - 1 - |r|];
      r
    else s
  }

  /** Text that does not start with white space is left as it is. */
  lemma TrimStartKeeps(s: string)
    requires s == [] || !IsJsSpace(s[0])
    ensures TrimStart(s) == s
  {
  }

  function TrimEnd(s: string): (r: string)
    ensures r == [] || !IsJsSpace(r[|r| - 1])
    ensures |r| <= |s| && r == s[..|r|] && AllSpace(s[|r|..])
  {
    if s != [] && IsJsSpace(s[|s| - 1]) then
      var r := TrimEnd(s[..|s| - 1]);
      SpaceTail(s, |r|);
      r
    else s
  }

  /** Dropping a trailing white-space character keeps the tail from `k` white space. */
  lemma SpaceTail(s: string, k: nat)
    requires s != [] && IsJsSpace(s[|s| - 1]) && k <= |s| - 1
    requires AllSpace(s[..|s| - 1][k..])
    ensures s[..k] == s[..|s| - 1][..k] && AllSpace(s[k..])
  {
    assert s[k..] == s[..|s| - 1][k..] + [s[|s| - 1]];
  }

  /** `s.trim()`: `s` is white space, then the result, then white space, and
      the result neither starts nor ends with white space. */
  function Trim(s: string): (r: string)
    ensures r == [] || (!IsJsSpace(r[0]) && !IsJsSpace(r[|r| - 1]))
    ensures exists i, j | 0 <= i <= j <= |s| :: r == s[i..j] && AllSpace(s[..i]) && AllSpace(s[j..])
  {
    var t := TrimStart(s);
    var r := TrimEnd(t);
    var i := |s| - |t|;
    assert r == s[i..i + |r|] && AllSpace(s[..i]) && AllSpace(s[i + |r|..]) by {
      assert s[i + |r|..] == t[|r|..];
    }
    r
  }

  function LowerChar(c: char): char {
    if 'A' <= c <= 'Z' then (c as int + 32) as char else c
  }

  /** `s.toLowerCase()`, on the letters A to Z. */
  function Lower(s: string): (r: string)
    ensures |r| == |s|
  {
    seq(|s|, i requires 0 <= i < |s| => LowerChar(s[i]))
  }

  /** `s.split(",")`: the pieces between commas, `[""]` for the empty string. */
  function Split(s: string): (r: seq<string>)
    ensures |r| >= 1
  {
    if s == [] then [""]
    else
      var rest := Split(s[1..]);
      if s[0] == ',' then [""] + rest else [[s[0]] + rest[0]] + rest[1..]
  }

  /** The pieces joined again with commas. */
  function Join(pieces: seq<string>): string
    requires |pieces| >= 1
  {
    if |pieces| == 1 then pieces[0] else pieces[0] + "," + Join(pieces[1..])
  }

  /** One list entry after `s.trim().toLowerCase()`. */
  function Normalize(s: string): string {
    Lower(Trim(s))
  }

  /** `pieces.map(normalize)`. */
  function NormalizeAll(pieces: seq<string>): (r: seq<string>)
    ensures |r| == |pieces| && forall i | 0 <= i < |pieces| :: r[i] == Normalize(pieces[i])
  {
    seq(|pieces|, i requires 0 <= i < |pieces| => Normalize(pieces[i]))
  }

  /** `raw.split(",").map(normalize).filter(Boolean)`. */
  function Entries(raw: string): seq<string> {
    Filter(NormalizeAll(Split(raw)), (e: string) => e != "")
  }

  /** `isAdminEmail(email)` with `ADMIN_EMAILS` set to `adminEmails`. */
  function IsAdminEmail(email: Option<string>, adminEmails: Option<string>): (r: bool)
    ensures !Truthy(email) ==> !r
    ensures r ==> exists p | p in Split(OrElse(adminEmails, "")) :: Normalize(p) != "" && Lower(email.value) == Normalize(p)
  {
    var raw := OrElse(adminEmails, "");
    EntriesFromPieces(raw);
    Truthy(email) && Lower(email.value) in Entries(raw)
  }

  /** Every entry is the non-empty normalisation of some piece. */
  lemma EntriesFromPieces(raw: string)
    ensures forall e | e in Entries(raw) :: exists p | p in Split(raw) :: Normalize(p) != "" && e == Normalize(p)
  {
    forall e | e in Entries(raw)
      ensures exists p | p in Split(raw) :: Normalize(p) != "" && e == Normalize(p)
    {
      var p := EntryFromPiece(raw, e);
    }
  }

  // ---------- properties ----------

  /** Splitting at the commas and joining with commas gives the text back,
      and no piece holds a comma. */
  lemma SplitJoin(s: string)
    ensures Join(Split(s)) == s
    ensures forall p | p in Split(s) :: ',' !in p
  {
    JoinSplit(s);
    SplitNoComma(s);
  }

  lemma {:induction false} JoinSplit(s: string)
    ensures Join(Split(s)) == s
  {
    if s != [] {
      JoinSplit(s[1..]);
      var rest := Split(s[1..]);
      if s[0] == ',' {
        assert Split(s)[1..] == rest;
      } else {
        var r := Split(s);
        assert r[1..] == rest[1..];
        if |rest| == 1 {
          assert Join(r) == [s[0]] + rest[0];
        } else {
          assert Join(r) == [s[0]] + rest[0] + "," + Join(rest[1..]);
        }
        assert s == [s[0]] + s[1..];
      }
    }
  }

  lemma {:induction false} SplitNoComma(s: string)
    ensures forall p | p in Split(s) :: ',' !in p
  {
    if s != [] {
      SplitNoComma(s[1..]);
      var rest := Split(s[1..]);
      var r := Split(s);
      if s[0] == ',' {
        assert r[1..] == rest;
      } else {
        assert r[1..] == rest[1..];
        forall p | p in r ensures ',' !in p {
          if p != r[0] {
            assert p in rest[1..];
          }
        }
      }
    }
  }

  /** An empty or unset `ADMIN_EMAILS`, or one holding only commas and white
      space, admits nobody. */
  lemma NoEntriesNoAdmins(email: Option<string>, adminEmails: Option<string>)
    requires forall i | 0 <= i < |OrElse(adminEmails, "")| ::
               var c := OrElse(adminEmails, "")[i]; c == ',' || IsJsSpace(c)
    ensures !IsAdminEmail(email, adminEmails)
  {
    var raw := OrElse(adminEmails, "");
    BlankPiecesNormalizeEmpty(raw);
  }

  lemma {:induction false} BlankPieces(raw: string)
    requires forall i | 0 <= i < |raw| :: raw[i] == ',' || IsJsSpace(raw[i])
    ensures forall p | p in Split(raw) :: AllSpace(p)
  {
    if raw != [] {
      BlankPieces(raw[1..]);
      var rest := Split(raw[1..]);
      if raw[0] != ',' {
        var r := Split(raw);
        assert r == [[raw[0]] + rest[0]] + rest[1..];
        assert rest[0] in rest;
        forall p | p in r ensures AllSpace(p) {
          if p != r[0] {
            assert p in rest[1..];
          }
        }
      }
    }
  }

  lemma BlankPiecesNormalizeEmpty(raw: string)
    requires forall i | 0 <= i < |raw| :: raw[i] == ',' || IsJsSpace(raw[i])
    ensures Entries(raw) == []
  {
    if Entries(raw) != [] {
      var e := Entries(raw)[0];
      var p := EntryFromPiece(raw, e);
      BlankPieces(raw);
      SpaceTrimsToEmpty(p);
      assert false;
    }
  }

  /** Each entry is the normalisation of a piece of the list. */
  lemma EntryFromPiece(raw: string, e: string) returns (p: string)
    requires e in Entries(raw)
    ensures p in Split(raw) && Normalize(p) == e && e != ""
  {
    var pieces := Split(raw);
    var normalized := NormalizeAll(pieces);
    assert e in normalized;
    var i :| 0 <= i < |pieces| && normalized[i] == e;
    p := pieces[i];
  }

  lemma SpaceTrimsToEmpty(s: string)
    requires AllSpace(s)
    ensures Trim(s) == ""
  {
  }

  /** Every entry is a fixed point of normalisation: non-empty, lower-case,
      trimmed. */
  lemma EntriesNormalized(raw: string, e: string)
    requires e in Entries(raw)
    ensures e != "" && Lower(e) == e && Trim(e) == e
  {
    var p := EntryFromPiece(raw, e);
    var t := Trim(p);
    LowerTwice(t);
    LowerKeepsTrimmed(t);
  }

  lemma LowerTwice(s: string)
    ensures Lower(Lower(s)) == Lower(s)
  {
  }

  lemma LowerKeepsTrimmed(t: string)
    requires t == [] || (!IsJsSpace(t[0]) && !IsJsSpace(t[|t| - 1]))
    ensures Trim(Lower(t)) == Lower(t)
  {
    var l := Lower(t);
    if l != [] {
      LowerKeepsSpace(t[0]);
      LowerKeepsSpace(t[|t| - 1]);
      assert !IsJsSpace(l[0]);
      assert TrimStart(l) == l;
      assert !IsJsSpace(l[|l| - 1]);
      assert TrimEnd(l) == l;
    }
  }

  lemma LowerKeepsSpace(c: char)
    ensures IsJsSpace(LowerChar(c)) <==> IsJsSpace(c)
  {
  }

  /** Matching ignores case: two emails that agree when lower-cased are both
      admins or both not. */
  lemma CaseInsensitive(a: string, b: string, adminEmails: Option<string>)
    requires Lower(a) == Lower(b)
    ensures IsAdminEmail(Some(a), adminEmails) == IsAdminEmail(Some(b), adminEmails)
  {
  }

  /** An admitted email holds no comma, since no entry does. */
  lemma AdminHasNoComma(email: string, adminEmails: Option<string>)
    requires IsAdminEmail(Some(email), adminEmails)
    ensures ',' !in email
  {
    var raw := OrElse(adminEmails, "");
    var p := EntryFromPiece(raw, Lower(email));
    SplitJoin(raw);
    assert ',' !in p;
    var t := Trim(p);
    var i, j :| 0 <= i <= j <= |p| && t == p[i..j];
    assert ',' !in t;
    LowerComma(t);
    LowerComma(email);
  }

  lemma LowerComma(s: string)
    ensures ',' in Lower(s) <==> ',' in s
  {
    if ',' in s {
      var k :| 0 <= k < |s| && s[k] == ',';
      assert Lower(s)[k] == ',';
    }
    if ',' in Lower(s) {
      var k :| 0 <= k < |s| && Lower(s)[k] == ',';
      assert s[k] == ',';
    }
  }

  /** An entry of the list admits every email equal to it up to case. */
  lemma ListedAdmits(email: string, entry: string, adminEmails: Option<string>)
    requires entry in Split(OrElse(adminEmails, ""))
    requires Normalize(entry) != "" && Lower(email) == Normalize(entry)
    ensures IsAdminEmail(Some(email), adminEmails)
  {
    var pieces := Split(OrElse(adminEmails, ""));
    var normalized := NormalizeAll(pieces);
    var i :| 0 <= i < |pieces| && pieces[i] == entry;
    assert normalized[i] == Lower(email);
    assert Lower(email) in normalized;
    assert Lower(email) in Entries(OrElse(adminEmails, ""));
    assert |email| == |Lower(email)| > 0;
  }
}
