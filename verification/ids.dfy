/** Identifier allocation (main.py `generate_*_id`, `generate_user_code`,
    `generate_user_id`).

    Record ids are a prefix followed by a record count rendered in decimal
    and left-padded with zeros to width five. The first candidate uses
    count + 1; while the candidate is found among the values stored under
    the probed key, the next number is tried. User codes and the numeric
    part of user ids are drawn at random from 1000..9999 and redrawn while
    taken; the draw is modelled as a choice among the free values. */
module Ids {
  import opened Common

  // ---------------------------------------------------------------------
  // Decimal rendering (Python `str(n)`), zero padding (`str.zfill`) and
  // the inverse reading of a digit string.

  function DigitChar(d: nat): (c: char)
    requires d < 10
    ensures '0' <= c <= '9'
  {
    ('0' as int + d) as char
  }

  function DigitValue(c: char): nat {
    if '0' <= c <= '9' then c as int - '0' as int else 0
  }

  /** Python `str(n)` for a natural number: no sign, no leading zero. */
  function Digits(n: nat): (s: string)
    decreases n
  {
    if n < 10 then [DigitChar(n)] else Digits(n / 10) + [DigitChar(n % 10)]
  }

  /** The number a string of decimal digits denotes (leading zeros allowed). */
  function ParseDigits(s: string): nat {
    if s == [] then 0 else 10 * ParseDigits(s[..|s| - 1]) + DigitValue(s[|s| - 1])
  }

  function Zeros(k: nat): (z: string)
  {
    if k == 0 then [] else Zeros(k - 1) + ['0']
  }

  lemma {:induction false} ZerosLength(k: nat)
    ensures |Zeros(k)| == k
  {
    if k > 0 {
      ZerosLength(k - 1);
    }
  }

  /** Python `s.zfill(width)` for a string without a sign. */
  function ZFill(s: string, width: nat): (r: string)
  {
    if |s| >= width then s else Zeros(width - |s|) + s
  }

  /** Reading back a rendered number gives the number. */
  lemma {:induction false} ParseDigitsOfDigits(n: nat)
    ensures ParseDigits(Digits(n)) == n
    decreases n
  {
    if n >= 10 {
      var s := Digits(n);
      assert s[..|s| - 1] == Digits(n / 10);
      ParseDigitsOfDigits(n / 10);
    }
  }

  /** Leading zeros do not change the number a digit string denotes. */
  lemma {:induction false} ParseSkipsZeros(k: nat, s: string)
    ensures ParseDigits(Zeros(k) + s) == ParseDigits(s)
    decreases |s|, k
  {
    if s == [] {
      assert Zeros(k) + s == Zeros(k);
      if k > 0 {
        ZerosLength(k);
        assert Zeros(k)[..k - 1] == Zeros(k - 1);
        ParseSkipsZeros(k - 1, []);
        assert Zeros(k - 1) + [] == Zeros(k - 1);
      }
    } else {
      var t := Zeros(k) + s;
      assert t[..|t| - 1] == Zeros(k) + s[..|s| - 1];
      assert t[|t| - 1] == s[|s| - 1];
      ParseSkipsZeros(k, s[..|s| - 1]);
    }
  }

  // ---------------------------------------------------------------------
  // Record ids.

  const IdWidth: nat := 5

  /** `prefix + str(n).zfill(5)`, the id a generator builds from number `n`. */
  function MakeId(prefix: string, n: nat): string {
    prefix + ZFill(Digits(n), IdWidth)
  }

  /** The number carried by `id` after `prefix` (0 when the prefix is absent). */
  function IdNumber(prefix: string, id: string): nat {
    if |prefix| <= |id| && id[..|prefix|] == prefix then ParseDigits(id[|prefix|..]) else 0
  }

  /** An id decodes to the number it was built from. */
  lemma IdNumberOfMakeId(prefix: string, n: nat)
    ensures IdNumber(prefix, MakeId(prefix, n)) == n
  {
    var d := Digits(n);
    var id := MakeId(prefix, n);
    assert id[..|prefix|] == prefix;
    assert id[|prefix|..] == ZFill(d, IdWidth);
    if |d| < IdWidth {
      assert ZFill(d, IdWidth) == Zeros(IdWidth - |d|) + d;
      ParseSkipsZeros(IdWidth - |d|, d);
    }
    ParseDigitsOfDigits(n);
  }

  /** Distinct numbers give distinct ids. */
  lemma MakeIdInjective(prefix: string, a: nat, b: nat)
    requires MakeId(prefix, a) == MakeId(prefix, b)
    ensures a == b
  {
    IdNumberOfMakeId(prefix, a);
    IdNumberOfMakeId(prefix, b);
  }

  /** The largest number carried by an id of `taken`. */
  function MaxNumber(prefix: string, taken: seq<string>): (m: nat)
    ensures forall x :: x in taken ==> IdNumber(prefix, x) <= m
  {
    if taken == [] then 0
    else
      var rest := MaxNumber(prefix, taken[1..]);
      var head := IdNumber(prefix, taken[0]);
      if head > rest then head else rest
  }

  /** The `j`-th candidate of a probe over a collection of `count` records. */
  function Candidate(prefix: string, count: nat, j: nat): string {
    MakeId(prefix, count + j)
  }

  /** Offset `m >= k` of the first candidate that is not among `taken`:
      the result of the upward probe. */
  function ProbeOffset(prefix: string, count: nat, taken: seq<string>, k: nat): (m: nat)
    ensures k <= m
    ensures Candidate(prefix, count, m) !in taken
    ensures forall j :: k <= j < m ==> Candidate(prefix, count, j) in taken
    decreases MaxNumber(prefix, taken) + 1 - (count + k)
  {
    if Candidate(prefix, count, k) in taken then
      IdNumberOfMakeId(prefix, count + k);
      ProbeOffset(prefix, count, taken, k + 1)
    else k
  }

  /** The id a generator returns for a collection holding `count` records,
      when `taken` lists the values stored under the key it probes. */
  function NextId(prefix: string, count: nat, taken: seq<string>): string {
    Candidate(prefix, count, ProbeOffset(prefix, count, taken, 1))
  }

  /** The common loop of the six `generate_*_id` helpers. */
  method GenerateId(prefix: string, count: nat, taken: seq<string>) returns (id: string)
    ensures id == NextId(prefix, count, taken)
    ensures id !in taken
  {
    id := Candidate(prefix, count, 1);
    var number: nat := 2;
    while id in taken
      invariant 2 <= number
      invariant id == Candidate(prefix, count, number - 1)
      invariant ProbeOffset(prefix, count, taken, number - 1) == ProbeOffset(prefix, count, taken, 1)
      decreases MaxNumber(prefix, taken) + 1 - (count + number - 1)
    {
      IdNumberOfMakeId(prefix, count + number - 1);
      id := Candidate(prefix, count, number);
      number := number + 1;
    }
  }

  /** When nothing is stored under the probed key, the first candidate is
      returned. */
  lemma NextIdUnprobed(prefix: string, count: nat)
    ensures NextId(prefix, count, []) == MakeId(prefix, count + 1)
  {
  }

  /** When the records of a collection are numbered 1..count in order, the
      first candidate is already fresh: the probe has nothing to do. */
  lemma FirstCandidateFresh(prefix: string, ids: seq<string>)
    requires forall i :: 0 <= i < |ids| ==> ids[i] == MakeId(prefix, i + 1)
    ensures MakeId(prefix, |ids| + 1) !in ids
  {
    if MakeId(prefix, |ids| + 1) in ids {
      var i :| 0 <= i < |ids| && ids[i] == MakeId(prefix, |ids| + 1);
      MakeIdInjective(prefix, i + 1, |ids| + 1);
    }
  }

  /** Ids numbered 1..n in order are pairwise distinct. */
  lemma SequentialIdsDistinct(prefix: string, ids: seq<string>)
    requires forall i :: 0 <= i < |ids| ==> ids[i] == MakeId(prefix, i + 1)
    ensures Distinct(ids)
  {
    forall i, j | 0 <= i < j < |ids|
      ensures ids[i] != ids[j]
    {
      if ids[i] == ids[j] {
        MakeIdInjective(prefix, i + 1, j + 1);
      }
    }
  }

  // ---------------------------------------------------------------------
  // User codes and user ids.

  const CodeLimit: nat := 9999
  const DrawLow: int := 1000
  const DrawHigh: int := 9999

  /** `generate_user_code` as written: it fails once exactly 9999 codes
      exist; otherwise the redraw loop ends on a code in 1000..9999 that is
      not taken. The loop only ends if such a code exists, which is what
      the precondition demands of the caller. */
  method GenerateUserCode(codes: seq<int>) returns (r: Result<int>)
    requires |codes| == CodeLimit || exists c :: DrawLow <= c <= DrawHigh && c !in codes
    ensures r.Err? <==> |codes| == CodeLimit
    ensures r.Err? ==> r.error == Conflict("User code limit reached")
    ensures r.Ok? ==> DrawLow <= r.value <= DrawHigh && r.value !in codes
  {
    if |codes| == CodeLimit {
      return Err(Conflict("User code limit reached"));
    }
    var c :| DrawLow <= c <= DrawHigh && c !in codes;
    r := Ok(c);
  }

  /** The draw range holds 9000 codes, so 9000 distinct codes exhaust it
      while the limit check (9999 codes) still lets the redraw loop start:
      the loop can then never end. */
  lemma UserCodeLimitUnreachable()
    ensures var codes := seq(9000, i => DrawLow + i);
            |codes| != CodeLimit && forall c :: DrawLow <= c <= DrawHigh ==> c in codes
  {
    var codes := seq(9000, i => DrawLow + i);
    forall c | DrawLow <= c <= DrawHigh
      ensures c in codes
    {
      assert codes[c - DrawLow] == c;
    }
  }

  /** User code generation with the limit tied to the draw range: it needs
      nothing from its caller and fails exactly when every code of the
      range is taken. */
  method GenerateUserCodeBounded(codes: seq<int>) returns (r: Result<int>)
    ensures r.Err? <==> forall c :: DrawLow <= c <= DrawHigh ==> c in codes
    ensures r.Err? ==> r.error == Conflict("User code limit reached")
    ensures r.Ok? ==> DrawLow <= r.value <= DrawHigh && r.value !in codes
  {
    if forall c :: DrawLow <= c <= DrawHigh ==> c in codes {
      return Err(Conflict("User code limit reached"));
    }
    var c :| DrawLow <= c <= DrawHigh && c !in codes;
    r := Ok(c);
  }

  /** ASCII lower-casing of one character. */
  function Lower(c: char): char {
    if 'A' <= c <= 'Z' then (c as int + 32) as char else c
  }

  /** `firstName[0].lower() + lastName[0].lower() + str(n)`. */
  function UserIdOf(first: char, last: char, n: nat): string {
    [Lower(first), Lower(last)] + Digits(n)
  }

  /** A user id of the drawn range is six characters long and its last four
      characters read back as the drawn number. */
  lemma UserIdShape(first: char, last: char, n: nat)
    requires DrawLow <= n <= DrawHigh
    ensures |UserIdOf(first, last, n)| == 6
    ensures ParseDigits(UserIdOf(first, last, n)[2..]) == n
  {
    assert Digits(n) == Digits(n / 10) + [DigitChar(n % 10)];
    assert Digits(n / 10) == Digits(n / 100) + [DigitChar(n / 10 % 10)];
    assert Digits(n / 100) == Digits(n / 1000) + [DigitChar(n / 100 % 10)];
    assert UserIdOf(first, last, n)[2..] == Digits(n);
    ParseDigitsOfDigits(n);
  }

  /** `generate_user_id`: an empty first or last name makes `name[0]` raise;
      otherwise the redraw loop ends on an id of the shape above that is not
      taken, which the precondition demands exists. */
  method GenerateUserId(firstName: string, lastName: string, ids: seq<string>) returns (r: Result<string>)
    requires firstName != [] && lastName != [] ==>
               exists n :: DrawLow <= n <= DrawHigh && UserIdOf(firstName[0], lastName[0], n) !in ids
    ensures r.Err? <==> firstName == [] || lastName == []
    ensures r.Ok? ==> r.value !in ids
    ensures r.Ok? ==> exists n :: DrawLow <= n <= DrawHigh && r.value == UserIdOf(firstName[0], lastName[0], n)
  {
    if firstName == [] || lastName == [] {
      return Err(Internal("string index out of range"));
    }
    var n :| DrawLow <= n <= DrawHigh && UserIdOf(firstName[0], lastName[0], n) !in ids;
    r := Ok(UserIdOf(firstName[0], lastName[0], n));
  }
}
