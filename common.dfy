/** Values and JavaScript string semantics shared by every module of the bot:
    an option type, the whitespace class of `\s`, ASCII case folding,
    `join`, `trim`, the quote-stripping pattern `^["']|["']$`, and the
    prefix parser `parseInt`. */
module Common {

  datatype Option<T> = None | Some(value: T)

  /** Default of `process.env.BOT_OWNER_ID` when the variable is unset or empty. */
  const DEFAULT_BOT_OWNER_ID: string := "1327564898460242015"

  /** The owner channel that several modules hard-code. */
  const OWNER_CHANNEL_ID: string := "1410011813398974626"

  /** `process.env.BOT_OWNER_ID || DEFAULT_BOT_OWNER_ID`: an empty value is falsy. */
  function BotOwnerId(env: Option<string>): (id: string)
    ensures id != ""
    ensures env.Some? && env.value != "" ==> id == env.value
    ensures !(env.Some? && env.value != "") ==> id == DEFAULT_BOT_OWNER_ID
  {
    if env.Some? && env.value != "" then env.value else DEFAULT_BOT_OWNER_ID
  }

  /** `x || fallback` for an optional string: absent and empty both fall back. */
  function OrDefault(x: Option<string>, fallback: string): string {
    if x.Some? && x.value != "" then x.value else fallback
  }

  /** The per-guild configuration object shared by the channel and media managers;
      an absent property is None. */
  datatype ServerConfig = ServerConfig(
    adminChannelId: Option<string>, j2cChannelId: Option<string>, lockedLinkChannels: Option<set<string>>)

  const EMPTY_CONFIG := ServerConfig(None, None, None)

  /** `serverConfigs.get(guildId) || {}`. */
  function ConfigOf(configs: map<string, ServerConfig>, guildId: string): ServerConfig {
    if guildId in configs then configs[guildId] else EMPTY_CONFIG
  }

  /** The parts of a command message that the staff check reads. */
  datatype Invocation = Invocation(authorId: string, guildId: string, guildOwnerId: string,
                                   isAdministrator: bool, channelId: string)

  /** The staff check of the channel and media managers: the bot owner and the
      server owner anywhere; an Administrator only in the owner channel or in
      the guild's admin channel, which defaults to the owner channel. */
  function IsStaffAuthorized(env: Option<string>, configs: map<string, ServerConfig>, inv: Invocation): (ok: bool)
    ensures ok <==> inv.authorId == BotOwnerId(env) || inv.authorId == inv.guildOwnerId
                    || (inv.isAdministrator && (inv.channelId == OWNER_CHANNEL_ID
                        || inv.channelId == OrDefault(ConfigOf(configs, inv.guildId).adminChannelId, OWNER_CHANNEL_ID)))
    ensures (inv.guildId !in configs || configs[inv.guildId].adminChannelId.None?) ==>
              (ok <==> inv.authorId == BotOwnerId(env) || inv.authorId == inv.guildOwnerId
                       || (inv.isAdministrator && inv.channelId == OWNER_CHANNEL_ID))
  {
    var adminChannelId := OrDefault(ConfigOf(configs, inv.guildId).adminChannelId, OWNER_CHANNEL_ID);
    if inv.authorId == BotOwnerId(env) then true
    else if inv.authorId == inv.guildOwnerId then true
    else if inv.isAdministrator && (inv.channelId == OWNER_CHANNEL_ID || inv.channelId == adminChannelId) then true
    else false
  }

  predicate NoDup<T(==)>(s: seq<T>) {
    forall i, j :: 0 <= i < j < |s| ==> s[i] != s[j]
  }

  function Min(a: int, b: int): int { if a <= b then a else b }
  function Max(a: int, b: int): int { if a >= b then a else b }

  /** The elements of `s` other than `x`, in order (JavaScript `Set.delete`
      or `Map.delete` on the insertion-ordered keys). */
  function Without(s: seq<string>, x: string): (r: seq<string>)
    ensures forall y :: y in r <==> y in s && y != x
    ensures |r| <= |s|
    ensures x !in s ==> r == s
  {
    if s == [] then []
    else if s[0] == x then Without(s[1..], x)
    else [s[0]] + Without(s[1..], x)
  }

  /** The tail of a duplicate-free sequence is duplicate-free and misses the head. */
  lemma TailNoDup<T>(s: seq<T>)
    requires s != [] && NoDup(s)
    ensures NoDup(s[1..]) && s[0] !in s[1..]
  {
    forall i, j | 0 <= i < j < |s[1..]| ensures s[1..][i] != s[1..][j] {
      assert s[1..][i] == s[i + 1] && s[1..][j] == s[j + 1];
    }
    forall k | 0 <= k < |s[1..]| ensures s[1..][k] != s[0] {
      assert s[1..][k] == s[k + 1];
    }
  }

  lemma ConsNoDup<T>(x: T, t: seq<T>)
    requires NoDup(t) && x !in t
    ensures NoDup([x] + t)
  {
    var r := [x] + t;
    forall i, j | 0 <= i < j < |r| ensures r[i] != r[j] {
      assert r[j] == t[j - 1];
      if i > 0 {
        assert r[i] == t[i - 1];
      }
    }
  }

  lemma {:induction false} WithoutNoDup(s: seq<string>, x: string)
    requires NoDup(s)
    ensures NoDup(Without(s, x))
    ensures x in s ==> |Without(s, x)| == |s| - 1
  {
    if s != [] {
      TailNoDup(s);
      WithoutNoDup(s[1..], x);
      if s[0] != x {
        ConsNoDup(s[0], Without(s[1..], x));
        assert x in s ==> x in s[1..];
      }
    }
  }

  /** JavaScript `Set.add` on an insertion-ordered set: appended only when absent. */
  function Insert(s: seq<string>, x: string): (r: seq<string>)
    ensures forall y :: y in r <==> y in s || y == x
    ensures NoDup(s) ==> NoDup(r)
    ensures x in s ==> r == s
  {
    if x in s then s else s + [x]
  }

  // ---------------------------------------------------------------------
  // Characters

  /** The character class of `\s` and of `String.prototype.trim`. */
  predicate IsSpace(c: char) {
    || c == ' ' || c == '\t' || c == '\n' || c == '\r' || c == '\U{000B}' || c == '\U{000C}'
    || c == '\U{00A0}' || c == '\U{1680}' || ('\U{2000}' <= c <= '\U{200A}')
    || c == '\U{2028}' || c == '\U{2029}' || c == '\U{202F}' || c == '\U{205F}'
    || c == '\U{3000}' || c == '\U{FEFF}'
  }

  predicate IsDigit(c: char) { '0' <= c <= '9' }

  predicate IsLowerAlnum(c: char) { ('a' <= c <= 'z') || IsDigit(c) }

  /** `toLowerCase` on one character, for the ASCII letters. */
  function LowerChar(c: char): char {
    if 'A' <= c <= 'Z' then (c as int + 32) as char else c
  }

  function ToLower(s: string): (r: string)
    ensures |r| == |s|
    ensures forall i :: 0 <= i < |s| ==> r[i] == LowerChar(s[i])
  {
    if s == [] then [] else [LowerChar(s[0])] + ToLower(s[1..])
  }

  predicate AllDigits(s: string) {
    forall i :: 0 <= i < |s| ==> IsDigit(s[i])
  }

  // ---------------------------------------------------------------------
  // Strings

  /** `s.replace(/c/g, '')`. */
  function RemoveChar(s: string, c: char): (r: string)
    ensures c !in r
    ensures forall d :: d in r <==> d in s && d != c
    ensures c !in s ==> r == s
  {
    if s == [] then []
    else if s[0] == c then RemoveChar(s[1..], c)
    else [s[0]] + RemoveChar(s[1..], c)
  }

  /** The summed lengths of the parts. */
  function TotalLength(parts: seq<string>): nat {
    if parts == [] then 0 else |parts[0]| + TotalLength(parts[1..])
  }

  /** `parts.join(sep)`: the parts in order, one separator between neighbours. */
  function Join(parts: seq<string>, sep: string): (r: string)
    ensures parts == [] ==> r == ""
    ensures parts != [] ==> |r| == TotalLength(parts) + (|parts| - 1) * |sep|
    ensures parts != [] ==> |parts[0]| <= |r| && r[..|parts[0]|] == parts[0]
  {
    if parts == [] then ""
    else if |parts| == 1 then parts[0]
    else
      var r := parts[0] + sep + Join(parts[1..], sep);
      assert r[..|parts[0]|] == parts[0];
      r
  }

  /** `trimStart`: exactly the leading whitespace is removed. */
  function TrimStart(s: string): (r: string)
    ensures |r| <= |s| && r == s[|s| - |r|..]
    ensures r != [] ==> !IsSpace(r[0])
    ensures Blanks(s[..|s| - |r|])
  {
    if s != [] && IsSpace(s[0]) then
      var t := s[1..];
      var r := TrimStart(t);
      var q := t[..|t| - |r|];
      assert s[..|s| - |r|] == [s[0]] + q;
      BlanksCons(s[0], q);
      assert s[|s| - |r|..] == t[|t| - |r|..];
      r
    else s
  }

  /** `trimEnd`: exactly the trailing whitespace is removed. */
  function TrimEnd(s: string): (r: string)
    ensures |r| <= |s| && r == s[..|r|]
    ensures r != [] ==> !IsSpace(r[|r| - 1])
    ensures Blanks(s[|r|..])
  {
    if s != [] && IsSpace(s[|s| - 1]) then
      var t := s[..|s| - 1];
      var r := TrimEnd(t);
      var q := t[|r|..];
      assert s[|r|..] == q + [s[|s| - 1]];
      BlanksSnoc(q, s[|s| - 1]);
      assert s[..|r|] == t[..|r|];
      r
    else s
  }

  /** `String.prototype.trim`: no whitespace is left at either end, text
      without edge whitespace is unchanged, and only blank text trims to empty. */
  function Trim(s: string): (r: string)
    ensures |r| <= |s|
    ensures r != [] ==> !IsSpace(r[0]) && !IsSpace(r[|r| - 1])
    ensures s != [] && !IsSpace(s[0]) && !IsSpace(s[|s| - 1]) ==> r == s
    ensures r == [] <==> Blanks(s)
  {
    var t := TrimStart(s);
    var r := TrimEnd(t);
    assert r != [] ==> r[0] == t[0];
    assert r == [] ==> Blanks(s) by {
      if r == [] {
        assert t[|r|..] == t;
        assert t == [];
        forall k | 0 <= k < |s| ensures IsSpace(s[k]) { assert s[k] == s[..|s| - |t|][k]; }
      }
    }
    r
  }

  predicate IsQuote(c: char) { c == '"' || c == '\'' }

  /** `s.replace(/^["']|["']$/g, '')`: one leading and one trailing quote
      character are removed; a lone quote is removed once. */
  function StripEdgeQuotes(s: string): (r: string)
    ensures |r| <= |s|
    ensures (s == [] || !IsQuote(s[0])) && (s == [] || !IsQuote(s[|s| - 1])) ==> r == s
    ensures |s| >= 2 && IsQuote(s[0]) && IsQuote(s[|s| - 1]) ==> r == s[1..|s| - 1]
    ensures |s| >= 1 && IsQuote(s[0]) && !IsQuote(s[|s| - 1]) ==> r == s[1..]
    ensures |s| >= 1 && !IsQuote(s[0]) && IsQuote(s[|s| - 1]) ==> r == s[..|s| - 1]
    ensures |s| == 1 && IsQuote(s[0]) ==> r == []
  {
    var t := if s != [] && IsQuote(s[0]) then s[1..] else s;
    if t != [] && IsQuote(t[|t| - 1]) then t[..|t| - 1] else t
  }

  /** Text wrapped in double quotes loses exactly those two quotes. */
  lemma StripWrapped(name: string)
    ensures StripEdgeQuotes("\"" + name + "\"") == name
  {
    var s := "\"" + name + "\"";
    assert IsQuote(s[0]) && IsQuote(s[|s| - 1]);
    assert s[1..|s| - 1] == name;
  }

  function Repeat(c: char, n: nat): (r: string)
    ensures |r| == n
    ensures forall i :: 0 <= i < n ==> r[i] == c
  {
    if n == 0 then [] else [c] + Repeat(c, n - 1)
  }

  predicate StartsWith(s: string, prefix: string) {
    |prefix| <= |s| && s[..|prefix|] == prefix
  }

  /** Whether `pat` occurs in `s` at index `i`. */
  predicate OccursAt(s: string, pat: string, i: nat) {
    i + |pat| <= |s| && s[i..i + |pat|] == pat
  }

  /** `s.indexOf(pat, from)`, or None for -1. */
  function IndexOf(s: string, pat: string, from: nat): (r: Option<nat>)
    decreases |s| - from
    ensures r.Some? ==> from <= r.value && OccursAt(s, pat, r.value)
    ensures r.Some? ==> forall k :: from <= k < r.value ==> !OccursAt(s, pat, k)
    ensures r.None? ==> forall k :: from <= k ==> !OccursAt(s, pat, k)
  {
    if from + |pat| > |s| then None
    else if OccursAt(s, pat, from) then Some(from)
    else IndexOf(s, pat, from + 1)
  }

  /** `s.includes(pat)`. */
  predicate Contains(s: string, pat: string) {
    IndexOf(s, pat, 0).Some?
  }

  /** `s.replace(pat, rep)` with a string pattern: the first occurrence only. */
  function ReplaceFirst(s: string, pat: string, rep: string): string {
    match IndexOf(s, pat, 0)
    case None => s
    case Some(i) => s[..i] + rep + s[i + |pat|..]
  }

  /** `indexOf` finds an occurrence when no earlier one exists from `from` on. */
  lemma IndexOfExact(s: string, pat: string, from: nat, k: nat)
    requires from <= k && OccursAt(s, pat, k)
    requires forall j :: from <= j < k ==> !OccursAt(s, pat, j)
    ensures IndexOf(s, pat, from) == Some(k)
  {
  }

  // ---------------------------------------------------------------------
  // Whitespace runs and ASCII case

  predicate Blanks(s: string) { forall k :: 0 <= k < |s| ==> IsSpace(s[k]) }

  lemma BlanksCons(c: char, q: string)
    requires IsSpace(c) && Blanks(q)
    ensures Blanks([c] + q)
  {
  }

  lemma BlanksSnoc(q: string, c: char)
    requires Blanks(q) && IsSpace(c)
    ensures Blanks(q + [c])
  {
  }

  predicate NoBlanks(s: string) { forall k :: 0 <= k < |s| ==> !IsSpace(s[k]) }

  /** `replace(/\s+/g, '-')`. */
  function CollapseSpaces(s: string): (r: string)
    ensures NoBlanks(r)
    decreases |s|
  {
    if s == [] then []
    else if IsSpace(s[0]) then "-" + CollapseSpaces(TrimStart(s[1..]))
    else [s[0]] + CollapseSpaces(s[1..])
  }

  lemma {:induction false} CollapseNoSpaces(w: string, rest: string)
    requires NoBlanks(w)
    ensures CollapseSpaces(w + rest) == w + CollapseSpaces(rest)
  {
    if w == [] {
      assert w + rest == rest;
    } else {
      var s := w + rest;
      assert s[0] == w[0] && !IsSpace(s[0]);
      assert s[1..] == w[1..] + rest;
      assert CollapseSpaces(s) == [w[0]] + CollapseSpaces(w[1..] + rest);
      CollapseNoSpaces(w[1..], rest);
      assert w == [w[0]] + w[1..];
    }
  }

  lemma {:induction false} TrimSpaces(sp: string, w: string)
    requires Blanks(sp)
    requires w == [] || !IsSpace(w[0])
    ensures TrimStart(sp + w) == w
  {
    if sp != [] {
      assert (sp + w)[1..] == sp[1..] + w;
      TrimSpaces(sp[1..], w);
    } else {
      assert sp + w == w;
    }
  }

  predicate NoUpper(s: string) { forall k :: 0 <= k < |s| ==> !('A' <= s[k] <= 'Z') }

  lemma NoUpperConcat(a: string, b: string)
    requires NoUpper(a) && NoUpper(b)
    ensures NoUpper(a + b)
  {
    forall k | 0 <= k < |a + b| ensures !('A' <= (a + b)[k] <= 'Z') {
      if k < |a| { assert (a + b)[k] == a[k]; } else { assert (a + b)[k] == b[k - |a|]; }
    }
  }

  lemma LowerOfNoUpper(s: string)
    requires NoUpper(s)
    ensures ToLower(s) == s
  {
  }

  // ---------------------------------------------------------------------
  // parseInt

  function DigitValue(c: char): nat
    requires IsDigit(c)
  {
    c as int - '0' as int
  }

  predicate IsHexDigit(c: char) {
    IsDigit(c) || ('a' <= c <= 'f') || ('A' <= c <= 'F')
  }

  function HexDigitValue(c: char): nat
    requires IsHexDigit(c)
  {
    if IsDigit(c) then DigitValue(c)
    else if 'a' <= c <= 'f' then c as int - 'a' as int + 10
    else c as int - 'A' as int + 10
  }

  /** The longest prefix of `s` whose characters satisfy the digit test. */
  function DecimalPrefix(s: string): (r: string)
    ensures |r| <= |s| && r == s[..|r|] && AllDigits(r)
    ensures |r| < |s| ==> !IsDigit(s[|r|])
  {
    if s != [] && IsDigit(s[0]) then [s[0]] + DecimalPrefix(s[1..]) else []
  }

  function HexPrefix(s: string): (r: string)
    ensures |r| <= |s| && r == s[..|r|]
    ensures forall i :: 0 <= i < |r| ==> IsHexDigit(r[i])
  {
    if s != [] && IsHexDigit(s[0]) then [s[0]] + HexPrefix(s[1..]) else []
  }

  function DecimalValue(d: string): nat
    requires AllDigits(d)
  {
    if d == [] then 0 else DecimalValue(d[..|d| - 1]) * 10 + DigitValue(d[|d| - 1])
  }

  function HexValue(d: string): nat
    requires forall i :: 0 <= i < |d| ==> IsHexDigit(d[i])
  {
    if d == [] then 0 else HexValue(d[..|d| - 1]) * 16 + HexDigitValue(d[|d| - 1])
  }

  /** The unsigned part of `parseInt`: a `0x`/`0X` prefix selects
      hexadecimal, otherwise the longest decimal prefix is converted; no
      digit at all gives NaN (None). */
  function ParseUnsigned(body: string): Option<int> {
    if |body| >= 2 && body[0] == '0' && (body[1] == 'x' || body[1] == 'X') then
      var h := HexPrefix(body[2..]);
      if h == [] then None else Some(HexValue(h))
    else
      var d := DecimalPrefix(body);
      if d == [] then None else Some(DecimalValue(d))
  }

  /** One optional sign in front of the unsigned part. */
  function ParseSigned(t: string): Option<int> {
    if t != [] && t[0] == '-' then
      match ParseUnsigned(t[1..])
      case None => None
      case Some(v) => Some(-v)
    else if t != [] && t[0] == '+' then ParseUnsigned(t[1..])
    else ParseUnsigned(t)
  }

  /** JavaScript `parseInt(s)` without a radix: leading whitespace is
      skipped, then one sign and the digits are read. */
  function ParseInt(s: string): (r: Option<int>)
    ensures Blanks(s) ==> r.None?
  {
    ParseSigned(TrimStart(s))
  }

  /** Leading whitespace does not change what `parseInt` reads. */
  lemma ParseIntSkipsSpace(sp: string, s: string)
    requires Blanks(sp)
    ensures ParseInt(sp + s) == ParseInt(s)
  {
    TrimStartBlanks(sp, s);
  }

  lemma {:induction false} TrimStartBlanks(sp: string, s: string)
    requires Blanks(sp)
    ensures TrimStart(sp + s) == TrimStart(s)
  {
    if sp != [] {
      var t := sp + s;
      assert t[0] == sp[0] && t[1..] == sp[1..] + s;
      assert TrimStart(t) == TrimStart(t[1..]);
      TrimStartBlanks(sp[1..], s);
    } else {
      assert sp + s == s;
    }
  }

  /** `parseInt(args[i])`; a missing argument is `undefined`, which parses to NaN. */
  function ParseIntArg(args: seq<string>, i: nat): (r: Option<int>)
    ensures i >= |args| ==> r.None?
    ensures i < |args| ==> r == ParseInt(args[i])
  {
    if i < |args| then ParseInt(args[i]) else None
  }

  /** The decimal digits of `n`, most significant first (`String(n)`). */
  function NatToString(n: nat): (r: string)
    ensures |r| >= 1 && AllDigits(r)
    ensures r[0] == '0' ==> n == 0
  {
    if n < 10 then ['0' + n as char]
    else NatToString(n / 10) + ['0' + (n % 10) as char]
  }

  lemma {:induction false} DecimalValueOfNatToString(n: nat)
    ensures DecimalValue(NatToString(n)) == n
  {
    var r := NatToString(n);
    if n >= 10 {
      DecimalValueOfNatToString(n / 10);
      assert r[..|r| - 1] == NatToString(n / 10);
    }
  }

  lemma TrimStartOfNonSpace(s: string)
    requires s != [] && !IsSpace(s[0])
    ensures TrimStart(s) == s
  {
  }

  /** Digits followed by text that cannot extend them are read as their value. */
  lemma UnsignedOfNatToString(n: nat, rest: string)
    requires rest == [] || (!IsDigit(rest[0]) && rest[0] != 'x' && rest[0] != 'X')
    ensures ParseUnsigned(NatToString(n) + rest) == Some(n)
  {
    var d := NatToString(n);
    var s := d + rest;
    assert s[0] == d[0];
    if |s| >= 2 && s[0] == '0' {
      assert n == 0 && |d| == 1;
      assert s[1] == rest[0];
    }
    DecimalPrefixConcat(d, rest);
    DecimalValueOfNatToString(n);
  }

  /** `parseInt(String(n)) == n`: the parser inverts decimal printing. */
  lemma ParseIntOfNatToString(n: nat)
    ensures ParseInt(NatToString(n)) == Some(n)
  {
    var s := NatToString(n);
    TrimStartOfNonSpace(s);
    UnsignedOfNatToString(n, []);
    assert s + [] == s;
  }

  lemma SignedNegative(d: string, v: int)
    requires ParseUnsigned(d) == Some(v)
    ensures ParseSigned("-" + d) == Some(-v)
  {
    var t := "-" + d;
    assert t[0] == '-' && t[1..] == d;
  }

  /** `parseInt('-' + String(n)) == -n`. */
  lemma ParseIntOfNegative(n: nat)
    ensures ParseInt("-" + NatToString(n)) == Some(-(n as int))
  {
    var d := NatToString(n);
    TrimStartOfNonSpace("-" + d);
    UnsignedOfNatToString(n, []);
    assert d + [] == d;
    SignedNegative(d, n);
  }

  /** A string that starts with no whitespace, sign or digit parses to NaN. */
  lemma ParseIntNaN(s: string)
    requires s != [] && !IsSpace(s[0]) && !IsDigit(s[0]) && s[0] != '-' && s[0] != '+'
    ensures ParseInt(s) == None
  {
    TrimStartOfNonSpace(s);
  }

  /** `parseInt` reads a digit prefix: trailing text after the digits is
      ignored, unless it turns a leading `0` into a `0x` prefix. */
  lemma ParseIntIgnoresSuffix(n: nat, rest: string)
    requires rest == [] || (!IsDigit(rest[0]) && rest[0] != 'x' && rest[0] != 'X')
    ensures ParseInt(NatToString(n) + rest) == Some(n)
  {
    var s := NatToString(n) + rest;
    assert s[0] == NatToString(n)[0];
    TrimStartOfNonSpace(s);
    UnsignedOfNatToString(n, rest);
  }

  lemma {:induction false} DecimalPrefixConcat(d: string, rest: string)
    requires AllDigits(d)
    requires rest == [] || !IsDigit(rest[0])
    ensures DecimalPrefix(d + rest) == d
  {
    if d != [] {
      assert (d + rest)[1..] == d[1..] + rest;
      DecimalPrefixConcat(d[1..], rest);
    } else {
      assert d + rest == rest;
    }
  }

  /** `String(n)` for any integer. */
  function IntToString(n: int): (r: string)
    ensures |r| >= 1 && (r[0] == '-' || IsDigit(r[0]))
  {
    if n < 0 then "-" + NatToString(-n) else NatToString(n)
  }

  lemma IntToStringNegative(n: int, m: nat)
    requires n < 0 && m == -n
    ensures IntToString(n) == "-" + NatToString(m)
  {
  }

  /** `parseInt(String(n)) == n` for every integer `n`. */
  lemma ParseIntOfIntToString(n: int)
    ensures ParseInt(IntToString(n)) == Some(n)
  {
    if n < 0 {
      var m: nat := -n;
      IntToStringNegative(n, m);
      ParseIntOfNegative(m);
    } else {
      ParseIntOfNatToString(n);
      assert IntToString(n) == NatToString(n);
    }
  }

  /** A parsed argument checked against an inclusive range: NaN and values
      outside `lo..hi` are rejected. */
  function InRange(v: Option<int>, lo: int, hi: int): (r: Option<int>)
    ensures r.Some? <==> v.Some? && lo <= v.value <= hi
    ensures r.Some? ==> r == v
  {
    if v.Some? && lo <= v.value && v.value <= hi then v else None
  }
}
