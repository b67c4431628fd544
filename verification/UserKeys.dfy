/**
 The key a hub indexes its bound users by, "role:id", and the parser that takes it apart.
 */
module UserKeys {

  const MAX_INT64 := 0x7fff_ffff_ffff_ffff
  const MIN_INT64 := -0x8000_0000_0000_0000
  const MAX_UINT64 := 0xffff_ffff_ffff_ffff

  type Int64 = i: int | MIN_INT64 <= i <= MAX_INT64

  const VISITOR := "visitor"
  const AGENT := "agent"

  function Digit(d: nat): (c: char)
    requires d < 10
    ensures '0' <= c <= '9' && c as int - '0' as int == d
  {
    ('0' as int + d) as char
  }

  function Digits(n: nat): (s: string)
    ensures s != [] && forall c :: c in s ==> '0' <= c <= '9'
  {
    if n < 10 then [Digit(n)] else Digits(n / 10) + [Digit(n % 10)]
  }

  // strconv.FormatInt(n, 10)
  function FormatInt(n: int): string {
    if n < 0 then "-" + Digits(-n) else Digits(n)
  }

  datatype Scanned = Value(n: nat) | Overflow | Malformed

  // strconv.ParseUint(s, 10, 64), left to right from an accumulator: the first bad character or
  // the first overflow decides.
  function Scan(s: string, acc: nat): Scanned
    requires acc <= MAX_UINT64
  {
    if s == [] then Value(acc)
    else if !('0' <= s[0] <= '9') then Malformed
    else
      var next := acc * 10 + (s[0] as int - '0' as int);
      if next > MAX_UINT64 then Overflow else Scan(s[1..], next)
  }

  // strconv.ParseInt(s, 10, 64) with its error dropped: 0 for a malformed number, the nearest
  // bound for one out of range.
  function ParseInt(s: string): Int64 {
    if s == [] then 0
    else
      var negative := s[0] == '-';
      var digits := if s[0] == '-' || s[0] == '+' then s[1..] else s;
      if digits == [] then 0
      else
        match Scan(digits, 0)
        case Malformed => 0
        case Overflow => if negative then MIN_INT64 else MAX_INT64
        case Value(n) =>
          var v: int := n;
          if negative then (if v > -MIN_INT64 then MIN_INT64 else -v)
          else if v > MAX_INT64 then MAX_INT64 else v
  }

  function UserKey(id: Int64, role: string): string {
    role + ":" + FormatInt(id)
  }

  // The position of the first ':' at or after i, or |key|.
  function Colon(key: string, i: nat): (at: nat)
    requires i <= |key|
    ensures i <= at <= |key| && (at < |key| ==> key[at] == ':')
    ensures forall k :: i <= k < at ==> key[k] != ':'
    decreases |key| - i
  {
    if i == |key| || key[i] == ':' then i else Colon(key, i + 1)
  }

  function Parsed(key: string): (string, Int64) {
    var at := Colon(key, 0);
    if at == |key| then ("", 0) else (key[..at], ParseInt(key[at + 1..]))
  }

  method ParseUserKey(key: string) returns (role: string, id: Int64)
    ensures (role, id) == Parsed(key)
    ensures ':' !in key ==> role == "" && id == 0
  {
    var at := -1;
    var i := 0;
    while i < |key|
      invariant 0 <= i <= |key|
      invariant at == -1 && forall k :: 0 <= k < i ==> key[k] != ':'
    {
      if key[i] == ':' {
        at := i;
        break;
      }
      i := i + 1;
    }
    if at < 0 {
      return "", 0;
    }
    FirstColon(key, at);
    return key[..at], ParseInt(key[at + 1..]);
  }

  lemma FirstColon(key: string, at: nat)
    requires at < |key| && key[at] == ':' && forall k :: 0 <= k < at ==> key[k] != ':'
    ensures Colon(key, 0) == at
  {
    var c := Colon(key, 0);
    assert c < |key| ==> key[c] == ':';
  }

  lemma {:induction false} ScanAppend(s: string, c: char, acc: nat)
    requires acc <= MAX_UINT64 && '0' <= c <= '9' && Scan(s, acc).Value?
    requires Scan(s, acc).n * 10 + (c as int - '0' as int) <= MAX_UINT64
    ensures Scan(s + [c], acc) == Value(Scan(s, acc).n * 10 + (c as int - '0' as int))
  {
    if s != [] {
      ScanAppend(s[1..], c, acc * 10 + (s[0] as int - '0' as int));
      assert (s + [c])[1..] == s[1..] + [c];
    }
  }

  lemma {:induction false} ScanDigits(n: nat)
    requires n <= MAX_UINT64
    ensures Scan(Digits(n), 0) == Value(n)
  {
    if n >= 10 {
      ScanDigits(n / 10);
      ScanAppend(Digits(n / 10), Digit(n % 10), 0);
    }
  }

  lemma ParseUndoesFormat(n: Int64)
    ensures ParseInt(FormatInt(n)) == n
  {
    var v: int := n;
    if v < 0 {
      ScanDigits(-v);
      assert FormatInt(n)[1..] == Digits(-v);
    } else {
      ScanDigits(n);
      assert Digits(n)[0] in Digits(n);
    }
  }

  // Parsing undoes key-building for every int64 id exactly when the role has no colon.
  lemma ParseUndoesKeyIff(id: Int64, role: string)
    ensures Parsed(UserKey(id, role)) == (role, id) <==> ':' !in role
  {
    var key := UserKey(id, role);
    if ':' in role {
      var k :| 0 <= k < |role| && role[k] == ':';
      assert key[k] == ':';
    } else {
      assert forall k :: 0 <= k < |role| ==> key[k] == role[k];
      FirstColon(key, |role|);
      assert key[..|role|] == role && key[|role| + 1..] == FormatInt(id);
      ParseUndoesFormat(id);
    }
  }

  // So two users never share a key.
  lemma KeysAreInjective(a: Int64, r: string, b: Int64, q: string)
    requires ':' !in r && ':' !in q && UserKey(a, r) == UserKey(b, q)
    ensures a == b && r == q
  {
    ParseUndoesKeyIff(a, r);
    ParseUndoesKeyIff(b, q);
  }
}
