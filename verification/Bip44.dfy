/** Derivation paths, src/bip44.c, and the policies about them, src/policy.c. */
module Bip44 {
  import opened Words
  import opened Numerals
  import opened Errors
  import opened Printing
  import opened Rlp
  import opened RoundTrip

  const BIP32_MAX_PATH_LENGTH := 10
  const HARDENED_BIP32: uint32 := 0x8000_0000
  const MAX_TEXT_BUFFER := 1024

  type Indexes = seq<uint32>

  /** `bip44_path_t`. */
  class Path {
    const path: array<uint32>
    var length: uint32

    constructor ()
      ensures fresh(path) && Valid() && Value() == []
    {
      path := new uint32[BIP32_MAX_PATH_LENGTH](_ => 0);
      length := 0;
    }

    ghost predicate Valid()
      reads this
    {
      path.Length == BIP32_MAX_PATH_LENGTH && length <= BIP32_MAX_PATH_LENGTH
    }

    function Value(): Indexes
      requires Valid()
      reads this, path
    {
      path[..length]
    }
  }

  // The path on the wire

  /** `u4be_read`. */
  function ReadWord(b: bytes): uint32
    requires |b| == 4
  {
    WordRead(b);
    Or(Shl(Or(Shl(b[0], 8), b[1]), 16), Or(Shl(b[2], 8), b[3]))
  }

  lemma WordRead(b: bytes)
    requires |b| == 4
    ensures Or(Shl(Or(Shl(b[0], 8), b[1]), 16), Or(Shl(b[2], 8), b[3])) == Eval(256, b) < W32
  {
    EvalFour(b);
    hide Or, Eval, Shl;
    WordJoined(b[0], b[1], b[2], b[3]);
  }

  lemma WordJoined(a: nat, b: uint8, c: nat, d: uint8)
    requires c < 256
    ensures Or(Shl(Or(Shl(a, 8), b), 16), Or(Shl(c, 8), d)) == (a * 256 + b) * 0x1_0000 + c * 256 + d
  {
    WordSizes();
    hide Pow, Or, Shl;
    var upper: nat, lower: nat := a * 256 + b, c * 256 + d;
    AppendByte(a, b, 0);
    AppendByte(c, d, 0);
    OrAppends(upper, lower, 16, 0);
    ShlNone(b);
    ShlNone(d);
    ShlNone(lower);
    ShlNone(upper);
    ShlNone(upper * 0x1_0000 + lower);
  }

  /** The `n` indexes behind the count. */
  function IndexesAt(data: bytes, n: nat): Indexes
    requires 1 + 4 * n <= |data|
  {
    if n == 0 then [] else IndexesAt(data, n - 1) + [ReadWord(data[4 * n - 3..4 * n + 1])]
  }

  /** The path and how many bytes it takes. */
  function Parsed(data: bytes): Result<(Indexes, nat)> {
    if data == [] || data[0] > BIP32_MAX_PATH_LENGTH || data[0] * 4 + 1 > |data| then Throws(ErrInvalidData)
    else Ok((IndexesAt(data, data[0]), 1 + 4 * data[0]))
  }

  lemma SameWord(buffer: array<uint8>, size: nat, at: nat)
    requires at + 4 <= size <= buffer.Length
    ensures buffer[at..at + 4] == buffer[..size][at..at + 4]
  {
  }

  /** `bip44_parseFromWire`. */
  method ParseFromWire(path: Path, dataBuffer: array<uint8>, dataSize: nat) returns (r: Result<nat>)
    requires path.Valid() && dataSize <= dataBuffer.Length
    modifies path, path.path
    ensures path.Valid()
    ensures var parsed := Parsed(dataBuffer[..dataSize]);
            if parsed.Ok? then r == Ok(parsed.value.1) && path.Value() == parsed.value.0
            else r == Throws(ErrInvalidData) && path.Value() == old(path.Value())
  {
    hide ReadWord;
    if dataSize < 1 {
      return Throws(ErrInvalidData);
    }
    var length := dataBuffer[0];
    if length > BIP32_MAX_PATH_LENGTH || length * 4 + 1 > dataSize {
      return Throws(ErrInvalidData);
    }
    path.length := length;
    var offset := 1;
    ghost var data := dataBuffer[..dataSize];
    for i := 0 to length
      invariant offset == 1 + 4 * i
      invariant path.length == length
      invariant path.path[..i] == IndexesAt(data, i)
    {
      var word := dataBuffer[offset..offset + 4];
      SameWord(dataBuffer, dataSize, offset);
      assert word == data[4 * (i + 1) - 3..4 * (i + 1) + 1];
      path.path[i] := ReadWord(word);
      offset := offset + 4;
      assert path.path[..i + 1] == path.path[..i] + [path.path[i]];
    }
    r := Ok(offset);
  }

  /** Four bytes, most significant first. */
  function WordBytes(x: uint32): (b: bytes)
    ensures |b| == 4
  {
    Zeros(4 - |BigEndian(x)|) + BigEndian(x)
  }

  function WireWords(path: Indexes): bytes {
    if path == [] then [] else WireWords(path[..|path| - 1]) + WordBytes(path[|path| - 1])
  }

  /** The count and then the indexes. */
  function Wire(path: Indexes): bytes
    requires |path| <= BIP32_MAX_PATH_LENGTH
  {
    [|path|] + WireWords(path)
  }

  lemma WordReadsBack(x: uint32, b: bytes)
    requires |b| == 4
    ensures ReadWord(b) == x <==> b == WordBytes(x)
  {
    WordRead(b);
    var w := WordBytes(x);
    hide Eval, Digits, Or;
    EvalConcat(256, Zeros(4 - |BigEndian(x)|), BigEndian(x));
    EvalZeros(256, 4 - |BigEndian(x)|);
    assert Eval(256, w) == x;
    if Eval(256, b) == x {
      PadUnique(256, b, w);
    }
  }

  lemma {:induction false} WordsReadBack(path: Indexes, data: bytes)
    requires 1 + 4 * |path| <= |data|
    ensures |WireWords(path)| == 4 * |path|
    ensures IndexesAt(data, |path|) == path <==> data[1..1 + 4 * |path|] == WireWords(path)
  {
    hide ReadWord, WordBytes;
    if path != [] {
      var n := |path|;
      var front, x := path[..n - 1], path[n - 1];
      WordsReadBack(front, data);
      var word := data[4 * n - 3..4 * n + 1];
      WordReadsBack(x, word);
      assert path == front + [x];
      assert data[1..1 + 4 * n] == data[1..1 + 4 * (n - 1)] + word;
      SameEnds(IndexesAt(data, n - 1), ReadWord(word), front, x);
      SameBlocks(data[1..1 + 4 * (n - 1)], word, WireWords(front), WordBytes(x));
    }
  }

  lemma SameEnds(a: Indexes, x: uint32, b: Indexes, y: uint32)
    ensures a + [x] == b + [y] <==> a == b && x == y
  {
    if a + [x] == b + [y] {
      assert (a + [x])[|a|] == x && (b + [y])[|b|] == y;
      assert (a + [x])[..|a|] == a && (b + [y])[..|b|] == b;
    }
  }

  lemma SameBlocks(a: bytes, x: bytes, b: bytes, y: bytes)
    requires |a| == |b|
    ensures a + x == b + y <==> a == b && x == y
  {
    if a + x == b + y {
      assert (a + x)[..|a|] == a && (b + y)[..|b|] == b && (a + x)[|a|..] == x && (b + y)[|b|..] == y;
    }
  }

  /** Parsing inverts the encoding: the data is parsed as `path` exactly when it begins with the encoding of `path`. */
  lemma ParseInvertsWire(path: Indexes, data: bytes)
    requires |path| <= BIP32_MAX_PATH_LENGTH
    ensures Parsed(data) == Ok((path, |Wire(path)|)) <==> Wire(path) <= data
  {
    hide ReadWord, WordBytes;
    var n, words := |path|, WireWords(path);
    LengthOfWords(path);
    if 1 + 4 * n <= |data| {
      WordsReadBack(path, data);
      assert Wire(path)[0] == n && Wire(path)[1..] == words;
      assert data[..1 + 4 * n] == [data[0]] + data[1..1 + 4 * n];
      SameBlocks([n], words, [data[0]], data[1..1 + 4 * n]);
    }
    if Parsed(data).Ok? {
      IndexCount(data, data[0]);
    }
  }

  lemma {:induction false} LengthOfWords(path: Indexes)
    ensures |WireWords(path)| == 4 * |path|
  {
    hide WordBytes;
    if path != [] {
      LengthOfWords(path[..|path| - 1]);
    }
  }

  lemma {:induction false} IndexCount(data: bytes, n: nat)
    requires 1 + 4 * n <= |data|
    ensures |IndexesAt(data, n)| == n
  {
    hide ReadWord;
    if n != 0 {
      IndexCount(data, n - 1);
    }
  }

  // The path as text

  predicate IsHardened(value: uint32) {
    value >= HARDENED_BIP32
  }

  /** An index is shown without its hardening bit, which is an apostrophe. */
  function Component(value: uint32): string {
    if IsHardened(value) then "/" + Numeral(value - HARDENED_BIP32, 10) + "'" else "/" + Numeral(value, 10)
  }

  function PathText(path: Indexes): string {
    if path == [] then "" else PathText(path[..|path| - 1]) + Component(path[|path| - 1])
  }

  /** `snprintf` into the `available` slots from `at` on, and the `strlen` of what it wrote. */
  method Snprintf(out: array<char>, at: nat, available: nat, text: string) returns (length: nat)
    requires 1 <= available && at + available <= out.Length
    modifies out
    ensures length == Min(|text|, available - 1)
    ensures out[..at] == old(out[..at])
    ensures out[at..at + length] == text[..length] && out[at + length] == '\0'
  {
    length := if |text| < available - 1 then |text| else available - 1;
    forall i | 0 <= i < length {
      out[at + i] := text[i];
    }
    out[at + length] := '\0';
  }

  /** The macro `WRITE`: the component must leave two slots free. */
  method WriteComponent(out: array<char>, ptr: nat, outSize: nat, value: uint32, ghost before: Indexes)
    returns (ok: bool, next: nat)
    requires ptr < outSize <= out.Length && out[..ptr] == PathText(before)
    modifies out
    ensures var text := PathText(before + [value]);
            ok == (|text| + 1 < outSize) && (ok ==> next == |text| && out[..next] == text && out[next] == '\0')
  {
    PathTextSnoc(before, value);
    hide Component, PathText;
    ghost var written := out[..ptr];
    var available := outSize - ptr;
    var res := Snprintf(out, ptr, available, Component(value));
    if !(res + 1 < available) {
      return false, ptr;
    }
    assert out[..ptr + res] == written + out[ptr..ptr + res];
    ok, next := true, ptr + res;
  }

  /** `bip44_pathToStr`.  The parser accepts ten indexes, but ten are too many here; a text that does not leave
      two slots free does not fit. */
  method PathToStr(path: Path, out: array<char>, outSize: nat) returns (r: Result<()>)
    requires path.Valid() && outSize <= out.Length
    modifies out
    ensures var text := PathText(path.Value());
            r == if 0 < outSize < 1024 && path.length <= 9
                    && (path.length == 0 || |text| + 1 < outSize)
                 then Ok(()) else Reset
    ensures r.Ok? && path.length > 0 ==>
              var text := PathText(path.Value());
              |text| + 1 < outSize && out[..|text|] == text && out[|text|] == '\0'
  {
    hide Component;
    if !(0 < outSize < MAX_TEXT_BUFFER) || path.length >= BIP32_MAX_PATH_LENGTH {
      return Reset;
    }
    var ptr: nat, n := 0, path.length;
    ghost var indexes := path.Value();
    for i := 0 to n
      invariant i == 0 ==> ptr == 0
      invariant i > 0 ==> ptr + 1 < outSize && out[ptr] == '\0'
      invariant out[..ptr] == PathText(indexes[..i]) && |PathText(indexes[..i])| == ptr
    {
      assert indexes[..i + 1] == indexes[..i] + [path.path[i]];
      PrefixShorter(indexes, i + 1);
      var ok, next := WriteComponent(out, ptr, outSize, path.path[i], indexes[..i]);
      if !ok {
        return Reset;
      }
      ptr := next;
    }
    assert indexes[..n] == indexes;
    r := Ok(());
  }

  lemma {:induction false} PrefixShorter(path: Indexes, n: nat)
    requires n <= |path|
    ensures |PathText(path[..n])| <= |PathText(path)|
    decreases |path|
  {
    hide Component;
    if n == |path| {
      assert path[..n] == path;
    } else {
      var front := path[..|path| - 1];
      PrefixShorter(front, n);
      assert front[..n] == path[..n];
    }
  }

  // Reading the text back

  /** How many digits the text begins with. */
  function DigitRun(s: string): (k: nat)
    ensures k <= |s|
  {
    if s == "" || DigitValue(s[0]) >= 10 then 0 else 1 + DigitRun(s[1..])
  }

  function ReadPath(s: string): Option<seq<nat>> {
    if s == "" then Some([])
    else if s[0] != '/' then None
    else
      var k := DigitRun(s[1..]);
      var n := Eval(10, DigitValues(s[1..1 + k]));
      var hardened := 1 + k < |s| && s[1 + k] == '\'';
      var rest := ReadPath(if hardened then s[2 + k..] else s[1 + k..]);
      if rest.None? then None else Some([if hardened then n + 2147483648 else n] + rest.value)
  }

  lemma PathTextSnoc(path: Indexes, value: uint32)
    ensures PathText(path + [value]) == PathText(path) + Component(value)
  {
    hide Component;
    assert (path + [value])[..|path|] == path;
  }

  lemma {:induction false} PathTextCons(value: uint32, path: Indexes)
    ensures PathText([value] + path) == Component(value) + PathText(path)
    decreases |path|
  {
    hide Component, PathText;
    if path == [] {
      NoText();
      PathTextSnoc([], value);
      assert [value] + path == [] + [value] && Component(value) + "" == "" + Component(value);
    } else {
      var front, last := path[..|path| - 1], path[|path| - 1];
      PathTextCons(value, front);
      PathTextSnoc(front, last);
      PathTextSnoc([value] + front, last);
      assert path == front + [last] && [value] + path == ([value] + front) + [last];
      ConcatAssoc(Component(value), PathText(front), Component(last));
    }
  }

  lemma NoText()
    ensures PathText([]) == ""
  {
  }

  lemma {:induction false} DigitRunStops(ds: string, t: string)
    requires forall i :: 0 <= i < |ds| ==> DigitValue(ds[i]) < 10
    requires t == "" || DigitValue(t[0]) >= 10
    ensures DigitRun(ds + t) == |ds| && (ds + t)[..|ds|] == ds && (ds + t)[|ds|..] == t
  {
    hide DigitValue;
    if ds == "" {
      assert ds + t == t;
    } else {
      assert (ds + t)[1..] == ds[1..] + t;
      DigitRunStops(ds[1..], t);
    }
  }

  /** `s` is a slash, then the digits `ds`, then an apostrophe if `hardened`, and then `t`. */
  ghost predicate Slashed(s: string, ds: string, hardened: bool, t: string) {
    s == "/" + (ds + if hardened then "'" + t else t)
  }

  lemma SlashedParts(s: string, ds: string, hardened: bool, t: string)
    requires Slashed(s, ds, hardened, t)
    requires forall i :: 0 <= i < |ds| ==> DigitValue(ds[i]) < 10
    requires t == "" || t[0] == '/'
    ensures s != "" && s[0] == '/' && DigitRun(s[1..]) == |ds| && 1 + |ds| <= |s| && s[1..1 + |ds|] == ds
    ensures hardened <==> 1 + |ds| < |s| && s[1 + |ds|] == '\''
    ensures (if hardened then s[2 + |ds|..] else s[1 + |ds|..]) == t
  {
    var behind := if hardened then "'" + t else t;
    DigitRunStops(ds, behind);
    hide *;
    Behind(s, ds, hardened, t);
  }

  lemma Behind(s: string, ds: string, hardened: bool, t: string)
    requires Slashed(s, ds, hardened, t) && (t == "" || t[0] == '/')
    ensures var behind := if hardened then "'" + t else t; s != "" && s[0] == '/' && s[1..] == ds + behind
    ensures 1 + |ds| <= |s| && s[1..1 + |ds|] == ds
    ensures hardened <==> 1 + |ds| < |s| && s[1 + |ds|] == '\''
    ensures (if hardened then s[2 + |ds|..] else s[1 + |ds|..]) == t
  {
    var behind := if hardened then "'" + t else t;
    assert s[1..] == ds + behind;
    assert s[1 + |ds|..] == behind;
    assert s[1..1 + |ds|] == s[1..][..|ds|] == ds;
    if hardened {
      assert s[2 + |ds|..] == behind[1..] == t;
    }
  }

  lemma ReadStep(s: string, ds: string, hardened: bool, t: string)
    requires Slashed(s, ds, hardened, t)
    requires forall i :: 0 <= i < |ds| ==> DigitValue(ds[i]) < 10
    requires t == "" || t[0] == '/'
    ensures var n, rest := Eval(10, DigitValues(ds)), ReadPath(t);
            ReadPath(s) == if rest.None? then None else Some([if hardened then n + 2147483648 else n] + rest.value)
  {
    hide Slashed, DigitRun, Eval, DigitValues, DigitValue, ReadPath;
    SlashedParts(s, ds, hardened, t);
    ReadUnfolds(s, ds, hardened, t);
  }

  lemma ReadUnfolds(s: string, ds: string, hardened: bool, t: string)
    requires s != "" && s[0] == '/' && DigitRun(s[1..]) == |ds| && s[1..1 + |ds|] == ds
    requires hardened <==> 1 + |ds| < |s| && s[1 + |ds|] == '\''
    requires (if hardened then s[2 + |ds|..] else s[1 + |ds|..]) == t
    ensures var n, rest := Eval(10, DigitValues(ds)), ReadPath(t);
            ReadPath(s) == if rest.None? then None else Some([if hardened then n + 2147483648 else n] + rest.value)
  {
    hide DigitRun, Eval, DigitValues;
  }

  lemma ComponentSlashed(value: uint32, t: string)
    ensures var hardened := IsHardened(value);
            Slashed(Component(value) + t, Numeral(if hardened then value - HARDENED_BIP32 else value, 10), hardened, t)
  {
    hide Numeral;
  }

  /** An index is shown in decimal digits, without its top bit; an apostrophe ends it exactly when that bit is set. */
  lemma ComponentShows(value: uint32)
    ensures var text, ds := Component(value), Numeral(if value >= 2147483648 then value - 2147483648 else value, 10);
            text == "/" + ds + (if value >= 2147483648 then "'" else "")
    ensures Component(value)[|Component(value)| - 1] == '\'' <==> value >= 2147483648
  {
    hide Numeral, DigitValue;
    var n: nat := if IsHardened(value) then value - HARDENED_BIP32 else value;
    NumeralReadsBack(n, 10);
    var ds, text := Numeral(n, 10), Component(value);
    assert DigitValue('\'') >= 10 by { NoDigit(); }
    if !IsHardened(value) {
      assert text[|text| - 1] == ds[|ds| - 1];
    }
  }

  lemma NoDigit()
    ensures DigitValue('\'') >= 10
  {
  }

  lemma ReadComponent(value: uint32, t: string)
    requires t == "" || t[0] == '/'
    ensures ReadPath(Component(value) + t) == if ReadPath(t).None? then None else Some([value] + ReadPath(t).value)
  {
    hide Numeral, Component, Slashed, Eval, DigitValues, ReadPath;
    var hardened := IsHardened(value);
    var n: nat := if hardened then value - HARDENED_BIP32 else value;
    NumeralReadsBack(n, 10);
    ComponentSlashed(value, t);
    ReadStep(Component(value) + t, Numeral(n, 10), hardened, t);
  }

  /** The text of a path is read back as the same indexes and hardening marks. */
  lemma {:induction false} PathTextReadsBack(path: Indexes)
    ensures ReadPath(PathText(path)) == Some(path)
    ensures path != [] ==> PathText(path) != "" && PathText(path)[0] == '/'
  {
    if path != [] {
      assert path == [path[0]] + path[1..];
      PathTextCons(path[0], path[1..]);
      PathTextReadsBack(path[1..]);
      assert Component(path[0]) != "" && Component(path[0])[0] == '/';
      hide PathText, Component, ReadPath;
      ReadComponent(path[0], PathText(path[1..]));
    }
  }

  /** Different paths are shown differently. */
  lemma PathTextsDiffer(p: Indexes, q: Indexes)
    requires PathText(p) == PathText(q)
    ensures p == q
  {
    PathTextReadsBack(p);
    PathTextReadsBack(q);
  }

  // The policy for signing and the derivation of the key

  datatype Policy = Deny | Prompt | Warn

  const PURPOSE: uint32 := 44
  const FANTOM_COIN_TYPE: uint32 := 60
  const MAX_REASONABLE_ACCOUNT := 10
  const MAX_REASONABLE_ADDRESS := 1000000

  predicate HasValidFantomPrefix(path: Indexes) {
    |path| > 1 && path[0] == PURPOSE + HARDENED_BIP32 && path[1] == FANTOM_COIN_TYPE + HARDENED_BIP32
  }

  predicate HasReasonableAccount(path: Indexes) {
    |path| > 2 && IsHardened(path[2]) && path[2] - HARDENED_BIP32 < MAX_REASONABLE_ACCOUNT
  }

  predicate HasReasonableAddress(path: Indexes) {
    |path| > 4 && path[4] <= MAX_REASONABLE_ADDRESS
  }

  /** `policyForSignTxInit`. */
  function SignInitPolicy(path: Indexes): Policy {
    if !HasValidFantomPrefix(path) then Deny
    else if !(|path| > 3) then Deny
    else if !(|path| > 4) then Deny
    else if !HasReasonableAccount(path) then Warn
    else if !HasReasonableAddress(path) then Warn
    else if |path| > 5 then Warn
    else Prompt
  }

  /** Only `44'/60'/a'/c/i` with a below 10 and i up to a million is accepted without a warning (any c is); what is
      refused is shorter than five indexes or begins otherwise. */
  lemma SignInitPolicyWhen(path: Indexes)
    ensures SignInitPolicy(path) == Prompt <==>
              |path| == 5 && path[..2] == [0x8000_002c, 0x8000_003c]
              && 0x8000_0000 <= path[2] < 0x8000_000a && path[4] <= 1000000
    ensures SignInitPolicy(path) == Deny <==>
              |path| < 5 || path[..2] != [0x8000_002c, 0x8000_003c]
  {
    if |path| >= 2 {
      assert path[..2] == [path[0], path[1]];
    }
  }

  /** What `derivePrivateKey` checks before it derives the key of a path: the prefix, and that the ten cells of the
      path are not all in use. */
  function KeyDerivation(path: Indexes): Result<()> {
    if !HasValidFantomPrefix(path) then Throws(ErrInvalidData)
    else if |path| >= BIP32_MAX_PATH_LENGTH then Reset
    else Ok(())
  }

  /** Of the paths the policy does not refuse, those of at most nine indexes have a key; ten indexes reset the
      device. */
  lemma AllowedPathHasKeyWhen(path: Indexes)
    requires |path| <= BIP32_MAX_PATH_LENGTH && SignInitPolicy(path) != Deny
    ensures KeyDerivation(path) == Ok(()) <==> |path| <= 9
    ensures KeyDerivation(path) == Reset <==> |path| == 10
  {
  }
}
