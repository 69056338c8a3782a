/** Text operations shared by the models: the parts of Rust's `str` that the server relies on. */
module Text {

  datatype Option<+T> = None | Some(value: T)

  /** Unicode White_Space, which is what `str::trim` removes. */
  predicate IsSpace(c: char) {
    var n := c as int;
    || 9 <= n <= 13 || n == 32 || n == 0x85 || n == 0xA0 || n == 0x1680
    || 0x2000 <= n <= 0x200A || n == 0x2028 || n == 0x2029 || n == 0x202F || n == 0x205F || n == 0x3000
  }

  /** The 25 characters with the White_Space property of the Unicode Character Database. */
  const SPACES: string :=
    ['\t', '\n', '\U{000B}', '\U{000C}', '\r', ' ', '\U{0085}', '\U{00A0}', '\U{1680}',
     '\U{2000}', '\U{2001}', '\U{2002}', '\U{2003}', '\U{2004}', '\U{2005}', '\U{2006}', '\U{2007}', '\U{2008}', '\U{2009}', '\U{200A}',
     '\U{2028}', '\U{2029}', '\U{202F}', '\U{205F}', '\U{3000}']

  lemma SpacesListed(c: char)
    ensures IsSpace(c) <==> c in SPACES
  {
    if IsSpace(c) {
      var n := c as int;
      var k := if n <= 13 then n - 9 else if n == 32 then 5 else if n == 0x85 then 6 else if n == 0xA0 then 7
               else if n == 0x1680 then 8 else if n <= 0x200A then n - 0x2000 + 9 else if n <= 0x2029 then n - 0x2028 + 20
               else if n == 0x202F then 22 else if n == 0x205F then 23 else 24;
      assert c == SPACES[k];
    }
  }

  predicate AllSpaces(s: string) {
    forall i :: 0 <= i < |s| ==> IsSpace(s[i])
  }

  /** Nothing to trim at either end. */
  predicate Bare(s: string) {
    s != [] ==> !IsSpace(s[0]) && !IsSpace(s[|s| - 1])
  }

  function TrimStart(s: string): (r: string)
    ensures |r| <= |s|
    ensures r != [] ==> !IsSpace(r[0])
  {
    if s != [] && IsSpace(s[0]) then TrimStart(s[1..]) else s
  }

  function TrimEnd(s: string): (r: string)
    ensures r <= s
    ensures r != [] ==> !IsSpace(r[|r| - 1])
  {
    if s != [] && IsSpace(s[|s| - 1]) then TrimEnd(s[..|s| - 1]) else s
  }

  function Trim(s: string): string {
    TrimEnd(TrimStart(s))
  }

  lemma {:induction false} TrimStartSkips(left: string, s: string)
    requires AllSpaces(left) && (s != [] ==> !IsSpace(s[0]))
    ensures TrimStart(left + s) == s
  {
    if left == [] {
      assert left + s == s;
    } else {
      assert (left + s)[1..] == left[1..] + s;
      TrimStartSkips(left[1..], s);
    }
  }

  lemma {:induction false} TrimEndSkips(s: string, right: string)
    requires AllSpaces(right) && (s != [] ==> !IsSpace(s[|s| - 1]))
    ensures TrimEnd(s + right) == s
  {
    if right == [] {
      assert s + right == s;
    } else {
      assert (s + right)[..|s| + |right| - 1] == s + right[..|right| - 1];
      TrimEndSkips(s, right[..|right| - 1]);
    }
  }

  /** Trimming takes away exactly the spaces around a text. */
  lemma TrimIs(left: string, s: string, right: string)
    requires AllSpaces(left) && AllSpaces(right) && Bare(s)
    ensures Trim(left + s + right) == s
    ensures IsBlank(left + s + right) <==> s == []
  {
    if s == [] {
      assert left + s + right == (left + right) + [];
      TrimStartSkips(left + right, []);
    } else {
      assert left + s + right == left + (s + right);
      TrimStartSkips(left, s + right);
      TrimEndSkips(s, right);
    }
  }

  predicate IsBlank(s: string) {
    Trim(s) == []
  }

  predicate IsUpper(c: char) {
    'A' <= c <= 'Z'
  }

  predicate IsLowerOrDigit(c: char) {
    'a' <= c <= 'z' || '0' <= c <= '9'
  }

  predicate IsAlnum(c: char) {
    IsUpper(c) || IsLowerOrDigit(c)
  }

  function LowerChar(c: char): (r: char)
    ensures !IsUpper(r)
    ensures IsAlnum(c) ==> IsLowerOrDigit(r)
  {
    if IsUpper(c) then ((c as int) + 32) as char else c
  }

  const UPPER: string := "ABCDEFGHIJKLMNOPQRSTUVWXYZ"
  const LOWER: string := "abcdefghijklmnopqrstuvwxyz"
  const DIGITS: string := "0123456789"

  lemma UppersInOrder(i: nat)
    requires i < 26
    ensures UPPER[i] as int == 'A' as int + i
  {
  }

  lemma LowersInOrder(i: nat)
    requires i < 26
    ensures LOWER[i] as int == 'a' as int + i
  {
  }

  lemma UppersListed(c: char)
    ensures IsUpper(c) <==> c in UPPER
  {
    if IsUpper(c) {
      UppersInOrder(c as int - 'A' as int);
    }
    if i :| 0 <= i < 26 && c == UPPER[i] {
      UppersInOrder(i);
    }
  }

  lemma LowersListed(c: char)
    ensures 'a' <= c <= 'z' <==> c in LOWER
  {
    if 'a' <= c <= 'z' {
      LowersInOrder(c as int - 'a' as int);
    }
    if i :| 0 <= i < 26 && c == LOWER[i] {
      LowersInOrder(i);
    }
  }

  lemma DigitsListed(c: char)
    ensures '0' <= c <= '9' <==> c in DIGITS
  {
    if '0' <= c <= '9' {
      assert c == DIGITS[c as int - '0' as int];
    }
  }

  /** Each of the 26 letters becomes its small form, and nothing else changes. */
  lemma LowerLetters(c: char)
    ensures forall i: nat :: i < 26 && c == UPPER[i] ==> LowerChar(c) == LOWER[i]
    ensures c !in UPPER ==> LowerChar(c) == c
  {
    UppersListed(c);
    forall i: nat | i < 26 && c == UPPER[i]
      ensures LowerChar(c) == LOWER[i]
    {
      UppersInOrder(i);
      LowersInOrder(i);
    }
  }

  lemma CharClasses(c: char)
    ensures IsUpper(c) <==> c in UPPER
    ensures IsLowerOrDigit(c) <==> c in LOWER || c in DIGITS
    ensures IsAlnum(c) <==> c in UPPER || c in LOWER || c in DIGITS
  {
    UppersListed(c);
    LowersListed(c);
    DigitsListed(c);
  }

  /** `to_ascii_lowercase`, also the key under which a DNS name is compared. */
  function Lower(s: string): (r: string)
    ensures |r| == |s|
    ensures forall i :: 0 <= i < |s| ==> r[i] == LowerChar(s[i])
  {
    if s == [] then [] else [LowerChar(s[0])] + Lower(s[1..])
  }

  lemma LowerIdempotent(s: string)
    ensures Lower(Lower(s)) == Lower(s)
  {
  }

  /** A server id as a node key: blank means the default node (`slot_key`, `normalize_server_id`). */
  function NodeKey(serverId: string): string {
    var trimmed := Trim(serverId);
    if trimmed == [] then "default" else trimmed
  }

  lemma {:induction false} TrimStartFixed(s: string)
    requires s != [] ==> !IsSpace(s[0])
    ensures TrimStart(s) == s
  {
  }

  /** Normalising a server id twice is normalising it once, so every spelling of a node shares one key. */
  lemma NodeKeyIdempotent(serverId: string)
    ensures NodeKey(NodeKey(serverId)) == NodeKey(serverId)
    ensures NodeKey(serverId) != []
  {
  }

  /** Every spelling of a node has its bare id for key, and a blank one the default. */
  lemma NodeKeyIs(left: string, id: string, right: string)
    requires AllSpaces(left) && AllSpaces(right) && Bare(id)
    ensures NodeKey(left + id + right) == if id == [] then "default" else id
  {
    TrimIs(left, id, right);
  }

  /** A natural number in decimal. */
  function Decimal(n: nat): (r: string)
    ensures r != []
  {
    if n < 10 then [('0' as int + n) as char] else Decimal(n / 10) + [('0' as int + n % 10) as char]
  }

  /** The number that a string of digits stands for. */
  function Number(digits: string): int {
    if digits == [] then 0
    else Number(digits[..|digits| - 1]) * 10 + (digits[|digits| - 1] as int - '0' as int)
  }

  /** Read as digits, it is the number again; it is written in digits, without a leading zero. */
  lemma {:induction false} DecimalReadsBack(n: nat)
    ensures Number(Decimal(n)) == n
    ensures forall i :: 0 <= i < |Decimal(n)| ==> '0' <= Decimal(n)[i] <= '9'
    ensures Decimal(n)[0] == '0' <==> n == 0
  {
    var d := Decimal(n);
    if n < 10 {
      assert d[..0] == [] && Number(d[..0]) == 0;
    } else {
      DecimalReadsBack(n / 10);
      assert d[..|d| - 1] == Decimal(n / 10);
    }
  }

  lemma DecimalInjective(m: nat, n: nat)
    ensures Decimal(m) == Decimal(n) ==> m == n
  {
    DecimalReadsBack(m);
    DecimalReadsBack(n);
  }
}
