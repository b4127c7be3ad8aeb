/**
 * The text handling behind `[int(t) for t in spec.split(',')]`: Python's
 * `str.split(',')`, the whitespace `int()` ignores around a literal, and the
 * base-10 literal grammar `int()` accepts (optional sign, decimal digits,
 * single underscores between digits).
 */
module PyInt {
  import opened MeterData

  /**
   * The whitespace int() ignores around a literal: tab, line feed, vertical tab,
   * form feed, carriage return and space among the ASCII characters, and the
   * non-ASCII characters str.isspace() accepts.
   */
  predicate IsSpace(c: char) {
    var n := c as int;
    (9 <= n <= 13) || n == 32 || n == 0x85 || n == 0xA0 || n == 0x1680 ||
    (0x2000 <= n <= 0x200A) || n == 0x2028 || n == 0x2029 || n == 0x202F || n == 0x205F || n == 0x3000
  }

  predicate AllSpace(s: string) {
    forall i :: 0 <= i < |s| ==> IsSpace(s[i])
  }

  /** Drop leading whitespace. */
  function StripStart(s: string): (r: string)
    ensures |r| <= |s| && r == s[|s| - |r|..]
    ensures r == [] || !IsSpace(r[0])
  {
    if s != [] && IsSpace(s[0]) then StripStart(s[1..]) else s
  }

  /** Drop trailing whitespace. */
  function StripEnd(s: string): (r: string)
    ensures |r| <= |s| && r == s[..|r|]
    ensures r == [] || !IsSpace(r[|r| - 1])
  {
    if s != [] && IsSpace(s[|s| - 1]) then StripEnd(s[..|s| - 1]) else s
  }

  /** str.strip(): whitespace dropped at both ends. */
  function Strip(s: string): string
  {
    StripEnd(StripStart(s))
  }

  /** The stripped text neither starts nor ends with whitespace. */
  lemma StripShape(s: string)
    ensures Strip(s) == [] || (!IsSpace(Strip(s)[0]) && !IsSpace(Strip(s)[|Strip(s)| - 1]))
  {
    var t := StripStart(s);
    assert Strip(s) == t[..|Strip(s)|];
  }

  lemma {:induction false} StripStartSpaces(pre: string, s: string)
    requires AllSpace(pre)
    requires s == [] || !IsSpace(s[0])
    ensures StripStart(pre + s) == s
  {
    if pre != [] {
      assert (pre + s)[1..] == pre[1..] + s;
      StripStartSpaces(pre[1..], s);
    }
  }

  lemma {:induction false} StripEndSpaces(s: string, post: string)
    requires AllSpace(post)
    requires s == [] || !IsSpace(s[|s| - 1])
    ensures StripEnd(s + post) == s
  {
    if post != [] {
      assert (s + post)[..|s + post| - 1] == s + post[..|post| - 1];
      StripEndSpaces(s, post[..|post| - 1]);
    }
  }

  /** Whitespace on either side of a token that starts and ends with a non-space is ignored. */
  lemma StripSurrounded(pre: string, body: string, post: string)
    requires AllSpace(pre) && AllSpace(post)
    requires body != [] && !IsSpace(body[0]) && !IsSpace(body[|body| - 1])
    ensures Strip(pre + body + post) == body
  {
    StripStartSpaces(pre, body + post);
    assert pre + body + post == pre + (body + post);
    StripEndSpaces(body, post);
  }

  predicate IsDigit(c: char) {
    '0' <= c <= '9'
  }

  predicate AllDigits(s: string) {
    forall i :: 0 <= i < |s| ==> IsDigit(s[i])
  }

  /** The value of a string of decimal digits, most significant first. */
  function DigitsValue(ds: string): int {
    if ds == [] then 0
    else DigitsValue(ds[..|ds| - 1]) * 10 + (ds[|ds| - 1] as int - '0' as int)
  }

  /** The body of a base-10 literal: a digit, then digits each optionally preceded by one underscore. */
  predicate ValidDigits(b: string) {
    && |b| > 0
    && IsDigit(b[0])
    && (|b| == 1 || ValidDigits(b[1..]) || (b[1] == '_' && ValidDigits(b[2..])))
  }

  /** The digits of a literal body, without its underscores. */
  function DropUnderscores(b: string): (r: string)
    ensures |r| <= |b|
  {
    if b == [] then []
    else if b[0] == '_' then DropUnderscores(b[1..])
    else [b[0]] + DropUnderscores(b[1..])
  }

  /** Python's int(token) in base 10: a ValueError naming the token unless, once stripped, it is a sign and digits. */
  function ParseInt(token: string): (r: Result<int>)
    ensures r.Err? ==> r.error == ValueError(token)
    ensures r.Ok? ==> Strip(token) != []
  {
    var t := Strip(token);
    if |t| > 0 && (t[0] == '+' || t[0] == '-') && ValidDigits(t[1..]) then
      var v: int := DigitsValue(DropUnderscores(t[1..]));
      Ok(if t[0] == '-' then -v else v)
    else if ValidDigits(t) then
      Ok(DigitsValue(DropUnderscores(t)))
    else
      Err(ValueError(token))
  }

  function DigitChar(d: nat): (c: char)
    requires d < 10
    ensures IsDigit(c) && c as int - '0' as int == d
  {
    ('0' as int + d) as char
  }

  /** The shortest decimal rendering of n: the text str(n) gives. */
  function NatString(n: nat): (s: string)
    ensures s != [] && AllDigits(s)
    ensures DigitsValue(s) == n
    ensures |s| > 1 ==> s[0] != '0'
  {
    if n < 10 then [DigitChar(n)]
    else
      var s := NatString(n / 10) + [DigitChar(n % 10)];
      assert s[..|s| - 1] == NatString(n / 10);
      s
  }

  /** str(n) for any integer n. */
  function IntString(n: int): (s: string)
    ensures s != [] && (s[0] == '-' <==> n < 0)
  {
    if n < 0 then "-" + NatString(-n) else NatString(n)
  }

  lemma {:induction false} DigitsAreValid(ds: string)
    requires ds != [] && AllDigits(ds)
    ensures ValidDigits(ds) && DropUnderscores(ds) == ds
  {
    if |ds| > 1 {
      DigitsAreValid(ds[1..]);
    }
  }

  /** The text str(n) has no whitespace at either end and no comma. */
  lemma IntStringShape(n: int)
    ensures IntString(n) != []
    ensures !IsSpace(IntString(n)[0]) && !IsSpace(IntString(n)[|IntString(n)| - 1])
    ensures ',' !in IntString(n)
  {
    var digits := NatString(if n < 0 then -n else n);
    assert IsDigit(digits[0]) && IsDigit(digits[|digits| - 1]);
    assert forall k :: 0 <= k < |digits| ==> digits[k] != ',';
    if n < 0 {
      assert IntString(n) == ['-'] + digits;
    }
  }

  /** int() reads back what str() writes, also with whitespace on either side. */
  lemma ParseIntString(n: int, pre: string, post: string)
    requires AllSpace(pre) && AllSpace(post)
    ensures ParseInt(pre + IntString(n) + post) == Ok(n)
  {
    var s := IntString(n);
    IntStringShape(n);
    StripSurrounded(pre, s, post);
    var digits := NatString(if n < 0 then -n else n);
    DigitsAreValid(digits);
    if n < 0 {
      assert s[0] == '-' && s[1..] == digits;
    } else {
      assert s == digits && s[0] != '+' && s[0] != '-';
    }
  }

  /** A token with nothing but whitespace, the empty token included, is a ValueError. */
  lemma ParseIntBlank(token: string)
    requires AllSpace(token)
    ensures ParseInt(token) == Err(ValueError(token))
  {
    StripStartSpaces(token, "");
    assert token + "" == token;
  }

  /** s.join(parts) with s == ",". */
  function Join(parts: seq<string>): string
    requires |parts| >= 1
  {
    if |parts| == 1 then parts[0] else parts[0] + "," + Join(parts[1..])
  }

  /** s.split(','): the pieces between commas, at least one. */
  function Split(s: string): (parts: seq<string>)
    ensures |parts| >= 1
  {
    if s == [] then [""]
    else
      var rest := Split(s[1..]);
      if s[0] == ',' then [""] + rest
      else [[s[0]] + rest[0]] + rest[1..]
  }

  /** No piece of s.split(',') contains a comma. */
  lemma {:induction false} SplitPiecesHaveNoComma(s: string)
    ensures forall p :: p in Split(s) ==> ',' !in p
  {
    if s != [] {
      SplitPiecesHaveNoComma(s[1..]);
      var rest := Split(s[1..]);
      if s[0] != ',' {
        assert ',' !in rest[0];
        assert forall p :: p in Split(s) ==> p == [s[0]] + rest[0] || p in rest[1..];
      }
    }
  }

  /** Joining the pieces restores the text. */
  lemma {:induction false} JoinSplit(s: string)
    ensures Join(Split(s)) == s
  {
    if s != [] {
      var rest := Split(s[1..]);
      JoinSplit(s[1..]);
      if s[0] == ',' {
        assert ([""] + rest)[1..] == rest;
        assert s == [s[0]] + s[1..];
      } else {
        var parts := [[s[0]] + rest[0]] + rest[1..];
        assert parts[1..] == rest[1..];
        assert s == [s[0]] + s[1..];
        if |rest| > 1 {
          assert Join(rest) == rest[0] + "," + Join(rest[1..]);
        }
      }
    }
  }

  lemma {:induction false} SplitPrefix(w: string, s: string)
    requires ',' !in w
    ensures Split(w + s) == [w + Split(s)[0]] + Split(s)[1..]
  {
    if w != [] {
      var S := Split(s);
      assert (w + s)[1..] == w[1..] + s;
      assert (w + s)[0] == w[0] && w[0] != ',';
      SplitPrefix(w[1..], s);
      var rest := Split(w[1..] + s);
      assert rest == [w[1..] + S[0]] + S[1..];
      assert rest[0] == w[1..] + S[0];
      assert rest[1..] == S[1..];
      assert Split(w + s) == [[w[0]] + rest[0]] + rest[1..];
      assert [w[0]] + (w[1..] + S[0]) == w + S[0];
    } else {
      assert w + s == s && w + Split(s)[0] == Split(s)[0];
      assert Split(s) == [Split(s)[0]] + Split(s)[1..];
    }
  }

  /** Splitting undoes joining, when no piece contains a comma. */
  lemma {:induction false} SplitJoin(parts: seq<string>)
    requires |parts| >= 1
    requires forall p :: p in parts ==> ',' !in p
    ensures Split(Join(parts)) == parts
  {
    if |parts| == 1 {
      SplitPrefix(parts[0], "");
      assert parts[0] + "" == parts[0];
    } else {
      SplitJoin(parts[1..]);
      assert Split("," + Join(parts[1..])) == [""] + Split(Join(parts[1..])) by {
        assert ("," + Join(parts[1..]))[1..] == Join(parts[1..]);
      }
      SplitPrefix(parts[0], "," + Join(parts[1..]));
      assert parts[0] + "," + Join(parts[1..]) == parts[0] + ("," + Join(parts[1..]));
      assert parts[0] + "" == parts[0];
      assert parts == [parts[0]] + parts[1..];
    }
  }

  /** The list comprehension over the tokens: the first token int() rejects decides the error. */
  function ParseTokens(toks: seq<string>): (r: Result<seq<int>>)
    ensures r.Ok? ==> |r.value| == |toks|
    ensures r.Err? ==> r.error.ValueError?
  {
    if toks == [] then Ok([])
    else
      match ParseInt(toks[0])
      case Err(e) => Err(e)
      case Ok(v) =>
        match ParseTokens(toks[1..])
        case Err(e) => Err(e)
        case Ok(vs) => Ok([v] + vs)
  }

  /** Each value of a successful comprehension is int() of the token in the same place. */
  lemma {:induction false} ParseTokensValues(toks: seq<string>, i: nat)
    requires i < |toks|
    ensures ParseTokens(toks).Ok? ==> ParseInt(toks[i]) == Ok(ParseTokens(toks).value[i])
  {
    if ParseTokens(toks).Ok? {
      ParseTokensCons(toks);
      if i > 0 {
        ParseTokensValues(toks[1..], i - 1);
        assert toks[1..][i - 1] == toks[i];
      }
    }
  }

  /** A successful comprehension is int() of the first token followed by the values of the rest. */
  lemma ParseTokensCons(toks: seq<string>)
    requires toks != [] && ParseTokens(toks).Ok?
    ensures ParseInt(toks[0]).Ok? && ParseTokens(toks[1..]).Ok?
    ensures ParseTokens(toks).value == [ParseInt(toks[0]).value] + ParseTokens(toks[1..]).value
  {
  }

  /** A failed comprehension reports int()'s error on the first token it rejects. */
  lemma {:induction false} ParseTokensFirstError(toks: seq<string>) returns (i: nat)
    requires ParseTokens(toks).Err?
    ensures i < |toks| && ParseInt(toks[i]) == Err(ParseTokens(toks).error)
    ensures forall j :: 0 <= j < i ==> ParseInt(toks[j]).Ok?
  {
    if ParseInt(toks[0]).Err? {
      i := 0;
    } else {
      var i' := ParseTokensFirstError(toks[1..]);
      i := i' + 1;
      forall j | 0 <= j < i ensures ParseInt(toks[j]).Ok? {
        if j > 0 {
          assert toks[j] == toks[1..][j - 1];
        }
      }
    }
  }

  /** `[int(t) for t in spec.split(',')]`. */
  function ParseIntList(spec: string): (r: Result<seq<int>>)
    ensures r.Ok? ==> |r.value| == |Split(spec)|
    ensures r.Err? ==> r.error.ValueError?
  {
    ParseTokens(Split(spec))
  }

  /** A spec with an empty or blank token (",," or a trailing comma, say) is a ValueError. */
  lemma ParseIntListBlankToken(spec: string, i: nat)
    requires i < |Split(spec)| && AllSpace(Split(spec)[i])
    ensures ParseIntList(spec).Err?
  {
    ParseIntBlank(Split(spec)[i]);
    ParseTokensValues(Split(spec), i);
  }

  /** The tokens of `", ".join(map(str, xs))`, with any run of whitespace in place of the space. */
  function Tokens(xs: seq<int>, gap: string): (toks: seq<string>)
  {
    seq(|xs|, i requires 0 <= i < |xs| => (if i == 0 then "" else gap) + IntString(xs[i]))
  }

  lemma TokenShape(xs: seq<int>, gap: string, i: nat)
    requires AllSpace(gap) && i < |xs|
    ensures ',' !in Tokens(xs, gap)[i]
    ensures ParseInt(Tokens(xs, gap)[i]) == Ok(xs[i])
  {
    var pre := if i == 0 then "" else gap;
    var t := Tokens(xs, gap)[i];
    assert t == pre + IntString(xs[i]) + "";
    IntStringShape(xs[i]);
    assert forall k :: 0 <= k < |pre| ==> pre[k] != ',';
    ParseIntString(xs[i], pre, "");
  }

  /** When int() accepts every token, the comprehension yields their values in order. */
  lemma ParseTokensAllOk(toks: seq<string>, xs: seq<int>)
    requires |toks| == |xs|
    requires forall i :: 0 <= i < |toks| ==> ParseInt(toks[i]) == Ok(xs[i])
    ensures ParseTokens(toks) == Ok(xs)
  {
    var r := ParseTokens(toks);
    if r.Err? {
      var i := ParseTokensFirstError(toks);
      assert false;
    } else {
      forall i | 0 <= i < |toks| ensures r.value[i] == xs[i] {
        ParseTokensValues(toks, i);
      }
      assert r.value == xs;
    }
  }

  /** A list of integers written out with commas (and whitespace after them) parses back to itself. */
  lemma ParseIntListRoundTrip(xs: seq<int>, gap: string)
    requires |xs| >= 1 && AllSpace(gap)
    ensures ParseIntList(Join(Tokens(xs, gap))) == Ok(xs)
  {
    var toks := Tokens(xs, gap);
    forall i | 0 <= i < |toks| ensures ',' !in toks[i] && ParseInt(toks[i]) == Ok(xs[i]) {
      TokenShape(xs, gap, i);
    }
    SplitJoin(toks);
    ParseTokensAllOk(toks, xs);
  }

  /** A single number typed on its own is read back as a one-element list. */
  lemma ParseIntListSingle(n: int)
    ensures ParseIntList(IntString(n)) == Ok([n])
  {
    var s := IntString(n);
    IntStringShape(n);
    SplitJoin([s]);
    assert "" + s + "" == s;
    ParseIntString(n, "", "");
    ParseTokensAllOk([s], [n]);
  }

  /** Splitting at a comma: the pieces of the left part, then those of the right part. */
  lemma SplitConcat(u: string, v: string)
    ensures Split(u + "," + v) == Split(u) + Split(v)
  {
    var P, Q := Split(u), Split(v);
    JoinSplit(u);
    JoinSplit(v);
    JoinConcat(P, Q);
    SplitPiecesHaveNoComma(u);
    SplitPiecesHaveNoComma(v);
    SplitJoin(P + Q);
  }

  /** Joining two lists of pieces with a comma between them. */
  lemma {:induction false} JoinConcat(P: seq<string>, Q: seq<string>)
    requires |P| >= 1 && |Q| >= 1
    ensures Join(P + Q) == Join(P) + "," + Join(Q)
  {
    if |P| == 1 {
      assert (P + Q)[1..] == Q;
    } else {
      JoinConcat(P[1..], Q);
      assert (P + Q)[1..] == P[1..] + Q;
      assert P[0] + "," + (Join(P[1..]) + "," + Join(Q)) == (P[0] + "," + Join(P[1..])) + "," + Join(Q);
    }
  }

  /** Two commas in a row leave an empty token: a ValueError, whatever surrounds them. */
  lemma EmptyTokenBetweenCommas(front: string, back: string)
    ensures ParseIntList(front + ",," + back).Err?
  {
    assert front + ",," + back == front + "," + ("," + back);
    SplitConcat(front, "," + back);
    assert "," + back == "" + "," + back;
    SplitConcat("", back);
    assert Split("") == [""];
    ParseIntListBlankToken(front + ",," + back, |Split(front)|);
  }

  /** A trailing comma leaves an empty last token: a ValueError. */
  lemma TrailingCommaRejected(front: string)
    ensures ParseIntList(front + ",").Err?
  {
    assert front + "," == front + "," + "";
    SplitConcat(front, "");
    assert Split("") == [""];
    ParseIntListBlankToken(front + ",", |Split(front)|);
  }

  /** An empty answer is one empty token: a ValueError. */
  lemma EmptySpecRejected()
    ensures ParseIntList("") == Err(ValueError(""))
  {
    assert Split("") == [""];
    ParseIntBlank("");
  }

  lemma {:induction false} StripStartKeeps(s: string, i: nat)
    requires i < |s| && !IsSpace(s[i])
    ensures |s| - |StripStart(s)| <= i
  {
    if IsSpace(s[0]) {
      StripStartKeeps(s[1..], i - 1);
    }
  }

  lemma {:induction false} StripEndKeeps(s: string, i: nat)
    requires i < |s| && !IsSpace(s[i])
    ensures i < |StripEnd(s)|
  {
    if IsSpace(s[|s| - 1]) {
      StripEndKeeps(s[..|s| - 1], i);
    }
  }

  lemma {:induction false} ValidDigitsChars(b: string, j: nat)
    requires ValidDigits(b) && j < |b|
    ensures IsDigit(b[j]) || b[j] == '_'
  {
    if j > 0 {
      if ValidDigits(b[1..]) {
        ValidDigitsChars(b[1..], j - 1);
      } else if j > 1 {
        ValidDigitsChars(b[2..], j - 2);
      }
    }
  }

  /** A character that is not whitespace survives stripping. */
  lemma StripKeeps(token: string, i: nat) returns (j: nat)
    requires i < |token| && !IsSpace(token[i])
    ensures j <= i && j < |Strip(token)| && Strip(token)[j] == token[i]
  {
    var s1 := StripStart(token);
    var o := |token| - |s1|;
    StripStartKeeps(token, i);
    j := i - o;
    assert s1[j] == token[i] by {
      assert s1 == token[o..];
    }
    StripEndKeeps(s1, j);
    var t := StripEnd(s1);
    assert t[j] == s1[j] by {
      assert t == s1[..|t|];
    }
    assert t == Strip(token);
  }

  /** A character that is not whitespace, a digit, a sign or an underscore makes int() fail. */
  lemma ParseIntRejectsForeignChar(token: string, i: nat)
    requires i < |token|
    requires !IsSpace(token[i]) && !IsDigit(token[i]) && token[i] !in "+-_"
    ensures ParseInt(token) == Err(ValueError(token))
  {
    var t := Strip(token);
    var j := StripKeeps(token, i);
    if ValidDigits(t) {
      ValidDigitsChars(t, j);
    }
    if |t| > 0 && (t[0] == '+' || t[0] == '-') && ValidDigits(t[1..]) {
      assert j > 0;
      ValidDigitsChars(t[1..], j - 1);
    }
  }

  /** Whitespace inside the stripped token, as in `1 2` or `- 1`, makes int() fail. */
  lemma ParseIntInnerSpace(token: string, j: nat)
    requires j < |Strip(token)| && IsSpace(Strip(token)[j])
    ensures ParseInt(token) == Err(ValueError(token))
  {
    var t := Strip(token);
    if ValidDigits(t) {
      ValidDigitsChars(t, j);
    }
    if |t| > 0 && (t[0] == '+' || t[0] == '-') && ValidDigits(t[1..]) {
      assert j > 0;
      ValidDigitsChars(t[1..], j - 1);
    }
  }

  /** An underscore in a literal body sits between two digits. */
  lemma {:induction false} ValidDigitsUnderscore(b: string, j: nat)
    requires ValidDigits(b) && j < |b| && b[j] == '_'
    ensures 0 < j < |b| - 1 && IsDigit(b[j - 1]) && IsDigit(b[j + 1])
  {
    if ValidDigits(b[1..]) {
      ValidDigitsUnderscore(b[1..], j - 1);
    } else if j > 1 {
      ValidDigitsUnderscore(b[2..], j - 2);
    }
  }

  /** A sign anywhere but at the start of the stripped token makes int() fail. */
  lemma ParseIntMisplacedSign(token: string, j: nat)
    requires 0 < j < |Strip(token)| && Strip(token)[j] in "+-"
    ensures ParseInt(token) == Err(ValueError(token))
  {
    var t := Strip(token);
    if ValidDigits(t) {
      ValidDigitsChars(t, j);
    }
    if (t[0] == '+' || t[0] == '-') && ValidDigits(t[1..]) {
      ValidDigitsChars(t[1..], j - 1);
    }
  }

  /** An underscore that is not between two digits makes int() fail. */
  lemma ParseIntMisplacedUnderscore(token: string, j: nat)
    requires j < |Strip(token)| && Strip(token)[j] == '_'
    requires !(0 < j < |Strip(token)| - 1 && IsDigit(Strip(token)[j - 1]) && IsDigit(Strip(token)[j + 1]))
    ensures ParseInt(token) == Err(ValueError(token))
  {
    var t := Strip(token);
    if ValidDigits(t) {
      ValidDigitsUnderscore(t, j);
    }
    if |t| > 0 && (t[0] == '+' || t[0] == '-') && ValidDigits(t[1..]) {
      ValidDigitsUnderscore(t[1..], j - 1);
    }
  }

  /** A sign with no digits after it makes int() fail. */
  lemma ParseIntLoneSign(token: string)
    requires Strip(token) == "+" || Strip(token) == "-"
    ensures ParseInt(token) == Err(ValueError(token))
  {
    assert Strip(token)[1..] == [];
  }

  /** k zero digits. */
  function Zeros(k: nat): (z: string)
    ensures |z| == k && forall i :: 0 <= i < k ==> z[i] == '0'
  {
    seq(k, i => '0')
  }

  /** Leading zero digits do not change the value of a digit string. */
  lemma {:induction false} DigitsValueLeadingZeros(z: string, ds: string)
    requires forall i :: 0 <= i < |z| ==> z[i] == '0'
    ensures DigitsValue(z + ds) == DigitsValue(ds)
    decreases |z| + |ds|
  {
    if ds == [] {
      assert z + ds == z;
      if z != [] {
        DigitsValueLeadingZeros(z[..|z| - 1], []);
        assert z[..|z| - 1] + [] == z[..|z| - 1];
      }
    } else {
      assert (z + ds)[..|z + ds| - 1] == z + ds[..|ds| - 1];
      DigitsValueLeadingZeros(z, ds[..|ds| - 1]);
    }
  }

  /** A stripped token that is an optional sign and a literal body reads as the body's value, negated after `-`. */
  lemma ParseIntSigned(token: string, sign: string, body: string, v: int)
    requires sign == "" || sign == "+" || sign == "-"
    requires ValidDigits(body) && Strip(token) == sign + body && DigitsValue(DropUnderscores(body)) == v
    ensures ParseInt(token) == Ok(if sign == "-" then -v else v)
  {
    var t := Strip(token);
    if sign == "" {
      assert t == body && IsDigit(t[0]);
    } else {
      assert t[0] == sign[0] && t[1..] == body;
    }
  }

  /** Leading zeros before the digits of n form a literal body of value n. */
  lemma ZerosThenDigits(n: nat, zeros: nat)
    ensures ValidDigits(Zeros(zeros) + NatString(n))
    ensures DigitsValue(DropUnderscores(Zeros(zeros) + NatString(n))) == n
  {
    var digits := Zeros(zeros) + NatString(n);
    assert AllDigits(digits);
    DigitsAreValid(digits);
    DigitsValueLeadingZeros(Zeros(zeros), NatString(n));
  }

  /** Stripping whitespace around a signed, zero-padded number leaves the sign and the digits. */
  lemma StripPadded(n: nat, sign: string, zeros: nat, pre: string, post: string)
    requires sign == "" || sign == "+" || sign == "-"
    requires AllSpace(pre) && AllSpace(post)
    ensures Strip(pre + sign + Zeros(zeros) + NatString(n) + post) == sign + (Zeros(zeros) + NatString(n))
  {
    var ds := NatString(n);
    var digits := Zeros(zeros) + ds;
    var body := sign + digits;
    assert pre + sign + Zeros(zeros) + ds + post == pre + body + post;
    assert body[|body| - 1] == ds[|ds| - 1];
    assert IsDigit(digits[0]);
    assert !IsSpace(body[0]) by {
      if sign == "" {
        assert body == digits;
      } else {
        assert body[0] == sign[0];
      }
    }
    StripSurrounded(pre, body, post);
  }

  /** int() accepts an optional sign and leading zeros before the digits of n, with whitespace around them. */
  lemma ParseIntPadded(n: nat, sign: string, zeros: nat, pre: string, post: string)
    requires sign == "" || sign == "+" || sign == "-"
    requires AllSpace(pre) && AllSpace(post)
    ensures ParseInt(pre + sign + Zeros(zeros) + NatString(n) + post) == Ok(if sign == "-" then -(n as int) else n)
  {
    ZerosThenDigits(n, zeros);
    StripPadded(n, sign, zeros, pre, post);
    ParseIntSigned(pre + sign + Zeros(zeros) + NatString(n) + post, sign, Zeros(zeros) + NatString(n), n);
  }

  /** Two literal bodies joined by one underscore form a literal body holding the digits of both. */
  lemma {:induction false} ValidDigitsJoin(a: string, b: string)
    requires ValidDigits(a) && ValidDigits(b)
    ensures ValidDigits(a + "_" + b)
    ensures DropUnderscores(a + "_" + b) == DropUnderscores(a) + DropUnderscores(b)
  {
    var c := a + "_" + b;
    assert c[0] == a[0];
    if |a| == 1 {
      assert c[1] == '_' && c[2..] == b && c[1..] == "_" + b;
      assert DropUnderscores(c[1..]) == DropUnderscores(b);
    } else if ValidDigits(a[1..]) {
      ValidDigitsJoin(a[1..], b);
      assert c[1..] == a[1..] + "_" + b;
    } else {
      ValidDigitsJoin(a[2..], b);
      assert c[1] == '_' && c[2..] == a[2..] + "_" + b && c[1..] == "_" + c[2..];
      assert a[1..] == "_" + a[2..];
    }
  }

  /** A literal body ends in a digit. */
  lemma ValidDigitsLast(b: string)
    requires ValidDigits(b)
    ensures IsDigit(b[|b| - 1])
  {
    ValidDigitsChars(b, |b| - 1);
    if b[|b| - 1] == '_' {
      ValidDigitsUnderscore(b, |b| - 1);
      assert false;
    }
  }

  /** Text that neither starts nor ends with whitespace has nothing to strip. */
  lemma StripUnpadded(c: string)
    requires c != [] && !IsSpace(c[0]) && !IsSpace(c[|c| - 1])
    ensures Strip(c) == c
  {
    StripSurrounded("", c, "");
    assert "" + c + "" == c;
  }

  /** Two literal bodies joined by an underscore have nothing to strip. */
  lemma StripGrouped(a: string, b: string)
    requires ValidDigits(a) && ValidDigits(b)
    ensures Strip(a + "_" + b) == a + "_" + b
  {
    var c := a + "_" + b;
    ValidDigitsLast(b);
    assert IsDigit(a[0]);
    assert c[0] == a[0] by {
      assert c == a + ("_" + b);
    }
    assert c[|c| - 1] == b[|b| - 1] by {
      assert c == (a + "_") + b;
    }
    StripUnpadded(c);
  }

  /** A token whose stripped text is an unsigned literal body reads as the body's value. */
  lemma ParseIntUnsigned(token: string)
    requires ValidDigits(Strip(token))
    ensures ParseInt(token) == Ok(DigitsValue(DropUnderscores(Strip(token))))
  {
    assert IsDigit(Strip(token)[0]);
  }

  /** int() accepts digit groups separated by single underscores and ignores the underscores. */
  lemma ParseIntGrouped(a: string, b: string)
    requires ValidDigits(a) && ValidDigits(b)
    ensures ParseInt(a + "_" + b) == Ok(DigitsValue(DropUnderscores(a) + DropUnderscores(b)))
  {
    ValidDigitsJoin(a, b);
    StripGrouped(a, b);
    ParseIntUnsigned(a + "_" + b);
  }

  /** A spec without commas holding a character int() never accepts is the ValueError of the whole spec. */
  lemma SingleBadToken(spec: string, i: nat)
    requires ',' !in spec && i < |spec|
    requires !IsSpace(spec[i]) && !IsDigit(spec[i]) && spec[i] !in "+-_"
    ensures ParseIntList(spec) == Err(ValueError(spec))
  {
    SplitJoin([spec]);
    ParseIntRejectsForeignChar(spec, i);
  }
}
