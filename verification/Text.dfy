/** Byte strings are Dafny strings, one char per byte; letter case is ASCII. */
module Text {
  datatype Option<+T> = None | Some(value: T)

  function LowerChar(c: char): char {
    if 'A' <= c <= 'Z' then c - 'A' + 'a' else c
  }

  function UpperChar(c: char): char {
    if 'a' <= c <= 'z' then c - 'a' + 'A' else c
  }

  function Lower(s: string): (r: string)
    ensures |r| == |s|
  {
    seq(|s|, i requires 0 <= i < |s| => LowerChar(s[i]))
  }

  function Upper(s: string): (r: string)
    ensures |r| == |s|
  {
    seq(|s|, i requires 0 <= i < |s| => UpperChar(s[i]))
  }

  predicate IsSpace(c: char) {
    c == ' ' || '\t' <= c <= '\r'
  }

  function TrimLeft(s: string): string {
    if s != "" && IsSpace(s[0]) then TrimLeft(s[1..]) else s
  }

  function TrimRight(s: string): string {
    if s != "" && IsSpace(s[|s| - 1]) then TrimRight(s[..|s| - 1]) else s
  }

  function Trim(s: string): string {
    TrimRight(TrimLeft(s))
  }

  function Last<T>(s: seq<T>): T
    requires s != []
  {
    s[|s| - 1]
  }

  function DigitsValue(s: string, value: nat): Option<nat> {
    if s == "" then Some(value)
    else if '0' <= s[0] <= '9' then DigitsValue(s[1..], 10 * value + (s[0] - '0') as nat)
    else None
  }

  const MAX_INT64 := 0x7fff_ffff_ffff_ffff

  // strconv.Atoi: an optional sign, then digits, within 64 bits.
  function Atoi(s: string): Option<int> {
    var negative := s != "" && s[0] == '-';
    var digits := if s != "" && (s[0] == '-' || s[0] == '+') then s[1..] else s;
    if digits == "" then None
    else
      match DigitsValue(digits, 0)
      case None => None
      case Some(magnitude) =>
        var m: int := magnitude;
        var value := if negative then 0 - m else m;
        if -MAX_INT64 - 1 <= value <= MAX_INT64 then Some(value) else None
  }

  function WordEnd(s: string, i: nat): (r: nat)
    requires i <= |s|
    ensures i <= r <= |s|
    decreases |s| - i
  {
    if i == |s| || IsSpace(s[i]) then i else WordEnd(s, i + 1)
  }

  // strings.Fields
  function Fields(s: string): seq<string>
    decreases |s|
  {
    if s == "" then []
    else if IsSpace(s[0]) then Fields(s[1..])
    else
      var end := WordEnd(s, 1);
      [s[..end]] + Fields(s[end..])
  }

  predicate IsBreak(c: char) {
    c == '\r' || c == '\n'
  }

  predicate OccursAt(s: string, pattern: string, i: nat) {
    i + |pattern| <= |s| && s[i..i + |pattern|] == pattern
  }

  // strings.Contains
  predicate Contains(s: string, pattern: string) {
    exists i :: 0 <= i <= |s| && OccursAt(s, pattern, i)
  }

  // bytes.Index, from i on
  function IndexOf(s: string, pattern: string, i: nat): (r: int)
    requires i <= |s|
    ensures r < 0 || (i <= r && OccursAt(s, pattern, r))
    decreases |s| - i
  {
    if OccursAt(s, pattern, i) then i else if i == |s| then -1 else IndexOf(s, pattern, i + 1)
  }

  // bytes.IndexByte
  function IndexByte(s: string, c: char, i: nat): (r: int)
    requires i <= |s|
    ensures r < 0 || i <= r < |s|
  {
    IndexOf(s, [c], i)
  }

  // isEncapsulatedMessage
  predicate IsEncapsulated(mediaType: string) {
    Lower(mediaType) == "message/rfc822" || Lower(mediaType) == "message/global"
  }

  lemma {:induction false} Regroup<T>(a: seq<T>, b: seq<T>, c: seq<T>)
    ensures a + b + c == a + (b + c)
  {
  }
}
