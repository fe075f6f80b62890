// The two CPU-list parsers: cpu_info.cpp splits with getline, numa_support.cpp
// with find.  Exceptions inside either one end in an empty list.

module CpuLists {
  datatype Option<+T> = None | Some(value: T)

  // --- the meaning of a list --------------------------------------------------

  // The position of the first c, or the length if there is none.
  function Find(s: string, c: char): (k: nat)
    ensures k <= |s| && (k < |s| ==> s[k] == c) && forall i :: 0 <= i < k ==> s[i] != c
    decreases |s|
  {
    if s == "" || s[0] == c then 0 else 1 + Find(s[1..], c)
  }

  // The pieces between commas; nothing follows a final comma.
  function Tokens(text: string): seq<string>
    decreases |text|
  {
    if text == "" then []
    else
      var k := Find(text, ',');
      if k == |text| then [text] else [text[..k]] + Tokens(text[k + 1..])
  }

  function Range(lo: int, hi: int): seq<int>
    decreases hi - lo
  {
    if lo > hi then [] else [lo] + Range(lo + 1, hi)
  }

  // One token: a number, or two numbers around the first dash, in order.
  function TokenCpus(token: string, stoi: string -> Option<int>): Option<seq<int>> {
    var dash := Find(token, '-');
    if dash == |token| then
      match stoi(token)
      case None => None
      case Some(v) => Some([v])
    else
      match (stoi(token[..dash]), stoi(token[dash + 1..]))
      case (Some(lo), Some(hi)) => if lo > hi then None else Some(Range(lo, hi))
      case _ => None
  }

  function Collect(tokens: seq<string>, stoi: string -> Option<int>): Option<seq<int>>
    decreases |tokens|
  {
    if tokens == [] then Some([])
    else
      match (TokenCpus(tokens[0], stoi), Collect(tokens[1..], stoi))
      case (Some(first), Some(rest)) => Some(first + rest)
      case _ => None
  }

  function OrEmpty(o: Option<seq<int>>): seq<int> {
    match o case None => [] case Some(v) => v
  }

  // cpu_info.cpp tries to convert empty tokens; numa_support.cpp rejects them.
  function GetlineList(text: string, stoi: string -> Option<int>): seq<int> {
    OrEmpty(Collect(Tokens(text), stoi))
  }

  function FindList(text: string, stoi: string -> Option<int>): seq<int> {
    if "" in Tokens(text) then [] else OrEmpty(Collect(Tokens(text), stoi))
  }

  // --- the parsers ------------------------------------------------------------

  function Prepend(cpus: seq<int>, o: Option<seq<int>>): Option<seq<int>> {
    match o case None => None case Some(v) => Some(cpus + v)
  }

  lemma PrependEmpty(o: Option<seq<int>>)
    ensures Prepend([], o) == o
  {
    match o case None => case Some(v) => assert [] + v == v;
  }

  // Taking the first token off: it fails the whole list, or adds its CPUs.
  lemma CollectStep(cpus: seq<int>, token: string, tokens: seq<string>, stoi: string -> Option<int>)
    ensures Prepend(cpus, Collect([token] + tokens, stoi))
            == match TokenCpus(token, stoi)
               case None => None
               case Some(first) => Prepend(cpus + first, Collect(tokens, stoi))
  {
    assert ([token] + tokens)[1..] == tokens;
    match (TokenCpus(token, stoi), Collect(tokens, stoi)) {
      case (Some(first), Some(rest)) => assert cpus + (first + rest) == (cpus + first) + rest;
      case _ =>
    }
  }

  lemma CollectEnd(cpus: seq<int>, stoi: string -> Option<int>)
    ensures Prepend(cpus, Collect([], stoi)) == Some(cpus)
  {
    assert cpus + [] == cpus;
  }

  // Splitting at the first comma.
  lemma TokensStep(text: string)
    requires text != ""
    ensures var k := Find(text, ',');
            Tokens(text) == [text[..k]] + Tokens(if k < |text| then text[k + 1..] else "")
  {
    assert text[..|text|] == text;
  }

  // A range holds every number from lo to hi, once and in order.
  lemma {:induction false} RangeAt(lo: int, hi: int)
    ensures |Range(lo, hi)| == if lo > hi then 0 else hi - lo + 1
    ensures forall i :: 0 <= i < |Range(lo, hi)| ==> Range(lo, hi)[i] == lo + i
    decreases hi - lo
  {
    if lo <= hi {
      RangeAt(lo + 1, hi);
    }
  }

  lemma {:induction false} RangeEnd(lo: int, hi: int)
    requires lo <= hi + 1
    ensures Range(lo, hi + 1) == Range(lo, hi) + [hi + 1]
    decreases hi - lo
  {
    if lo <= hi {
      RangeEnd(lo + 1, hi);
    }
  }

  method PushRange(cpus: seq<int>, first: int, last: int) returns (r: seq<int>)
    requires first <= last
    ensures r == cpus + Range(first, last)
  {
    r := cpus;
    var cpu := first;
    while cpu <= last
      invariant first <= cpu <= last + 1
      invariant r == cpus + Range(first, cpu - 1)
    {
      RangeEnd(first, cpu - 1);
      r := r + [cpu];
      cpu := cpu + 1;
    }
  }

  // The body of both loops: convert one token and push its CPUs, or fail.
  method ParseToken(cpus: seq<int>, token: string, stoi: string -> Option<int>) returns (r: Option<seq<int>>)
    ensures r == match TokenCpus(token, stoi) case None => None case Some(first) => Some(cpus + first)
  {
    var dash := Find(token, '-');
    if dash == |token| {
      match stoi(token) {
        case None => return None;
        case Some(v) => return Some(cpus + [v]);
      }
    }
    var begin, end := stoi(token[..dash]), stoi(token[dash + 1..]);
    if begin == None || end == None {
      return None;
    }
    if begin.value > end.value {
      return None;
    }
    var pushed := PushRange(cpus, begin.value, end.value);
    return Some(pushed);
  }

  // cpu_info.cpp: read tokens off a string stream until it is exhausted.
  method ParseWithGetline(text: string, stoi: string -> Option<int>) returns (r: seq<int>)
    ensures r == GetlineList(text, stoi)
  {
    assert Tokens("") == [];
    hide Prepend, Collect, Tokens, TokenCpus, Find;
    var stream := text;
    r := [];
    PrependEmpty(Collect(Tokens(text), stoi));
    while stream != ""
      invariant Prepend(r, Collect(Tokens(stream), stoi)) == Collect(Tokens(text), stoi)
      decreases |stream|
    {
      TokensStep(stream);
      var comma := Find(stream, ',');
      var item := stream[..comma];
      stream := if comma < |stream| then stream[comma + 1..] else "";
      CollectStep(r, item, Tokens(stream), stoi);
      var pushed := ParseToken(r, item, stoi);
      if pushed == None {
        return [];
      }
      r := pushed.value;
    }
    CollectEnd(r, stoi);
  }

  // What is left to parse: the tokens of the rest continue the result so far,
  // and no token before them was empty.
  ghost predicate Pending(r: seq<int>, rest: string, text: string, stoi: string -> Option<int>) {
    && Prepend(r, Collect(Tokens(rest), stoi)) == Collect(Tokens(text), stoi)
    && ("" in Tokens(text) <==> "" in Tokens(rest))
  }

  lemma PendingStep(r: seq<int>, token: string, later: string, rest: string, text: string,
                    stoi: string -> Option<int>)
    requires Pending(r, rest, text, stoi) && Tokens(rest) == [token] + Tokens(later)
    ensures token == "" ==> FindList(text, stoi) == []
    ensures TokenCpus(token, stoi) == None ==> FindList(text, stoi) == []
    ensures token != "" && TokenCpus(token, stoi) != None ==>
              Pending(r + TokenCpus(token, stoi).value, later, text, stoi)
  {
    CollectStep(r, token, Tokens(later), stoi);
    assert token == "" ==> ([token] + Tokens(later))[0] == "";
  }

  lemma PendingDone(r: seq<int>, text: string, stoi: string -> Option<int>)
    requires Pending(r, "", text, stoi)
    ensures FindList(text, stoi) == r
  {
    CollectEnd(r, stoi);
  }

  function After(text: string, end: nat): string {
    if end < |text| then text[end + 1..] else ""
  }

  lemma SliceOfRest(text: string, begin: nat, end: nat)
    requires begin <= end <= |text|
    ensures text[begin..][..end - begin] == text[begin..end]
    ensures end < |text| ==> text[begin..][end - begin + 1..] == text[end + 1..]
  {
  }

  lemma CutAt(text: string, begin: nat, end: nat)
    requires begin < |text| && end == begin + Find(text[begin..], ',')
    ensures Tokens(text[begin..]) == [text[begin..end]] + Tokens(After(text, end))
  {
    hide Find, Tokens;
    TokensStep(text[begin..]);
    SliceOfRest(text, begin, end);
  }

  lemma PendingStart(text: string, stoi: string -> Option<int>)
    ensures Pending([], text[0..], text, stoi)
  {
    assert text[0..] == text;
    PrependEmpty(Collect(Tokens(text), stoi));
  }

  lemma NothingAfter(text: string)
    ensures After(text, |text|) == ""
  {
  }

  lemma AfterIsRest(text: string, end: nat)
    requires end < |text|
    ensures After(text, end) == text[end + 1..]
  {
  }

  // numa_support.cpp: advance an index from comma to comma.
  method ParseWithFind(text: string, stoi: string -> Option<int>) returns (r: seq<int>)
    ensures r == FindList(text, stoi)
  {
    hide *;
    r := [];
    var begin := 0;
    PendingStart(text, stoi);
    while begin < |text|
      invariant begin <= |text| && Pending(r, text[begin..], text, stoi)
    {
      var end := begin + Find(text[begin..], ',');
      CutAt(text, begin, end);
      var token := text[begin..end];
      PendingStep(r, token, After(text, end), text[begin..], text, stoi);
      if end == begin {
        return [];
      }
      var pushed := ParseToken(r, token, stoi);
      if pushed == None {
        return [];
      }
      r := pushed.value;
      if end == |text| {
        NothingAfter(text);
        PendingDone(r, text, stoi);
        return;
      }
      AfterIsRest(text, end);
      begin := end + 1;
    }
    assert text[begin..] == "";
    PendingDone(r, text, stoi);
  }

  // --- agreement --------------------------------------------------------------

  lemma {:induction false} EmptyTokenFails(tokens: seq<string>, stoi: string -> Option<int>)
    requires "" in tokens && stoi("") == None
    ensures Collect(tokens, stoi) == None
    decreases |tokens|
  {
    if tokens[0] != "" {
      EmptyTokenFails(tokens[1..], stoi);
    }
  }

  // The parsers return the same list for every text, malformed ones included,
  // exactly when the conversion fails on the empty string.
  lemma ParsersAgreeIff(stoi: string -> Option<int>)
    ensures (forall text: string :: GetlineList(text, stoi) == FindList(text, stoi)) <==> stoi("") == None
  {
    if stoi("") == None {
      forall text: string ensures GetlineList(text, stoi) == FindList(text, stoi) {
        if "" in Tokens(text) {
          EmptyTokenFails(Tokens(text), stoi);
        }
      }
    } else {
      assert Tokens("") == [];
      assert Tokens(",") == [""];
      assert TokenCpus("", stoi) == Some([stoi("").value]);
      assert [""] + [] == [""];
      CollectStep([], "", [], stoi);
      CollectEnd([] + [stoi("").value], stoi);
      PrependEmpty(Collect([""], stoi));
      assert GetlineList(",", stoi) != FindList(",", stoi);
    }
  }

  // --- std::stoi --------------------------------------------------------------

  const INT_MAX := 0x7FFF_FFFF

  predicate IsDigit(c: char) { '0' <= c <= '9' }

  predicate IsSpace(c: char) { c == ' ' || '\t' <= c <= '\r' }

  function SkipSpaces(s: string): string
    decreases |s|
  {
    if s != "" && IsSpace(s[0]) then SkipSpaces(s[1..]) else s
  }

  function LeadingDigits(s: string): (k: nat)
    ensures k <= |s| && forall i :: 0 <= i < k ==> IsDigit(s[i])
    decreases |s|
  {
    if s != "" && IsDigit(s[0]) then 1 + LeadingDigits(s[1..]) else 0
  }

  function Value(s: string): nat
    requires forall i :: 0 <= i < |s| ==> IsDigit(s[i])
    decreases |s|
  {
    if s == "" then 0
    else
      assert IsDigit(s[|s| - 1]);
      10 * Value(s[..|s| - 1]) + (s[|s| - 1] - '0') as int
  }

  // White space, a sign, and as many digits as there are; what follows is
  // ignored.  No digits, or a value that is no int, throws.
  function Stoi(s: string): Option<int> {
    var t := SkipSpaces(s);
    var signed := t != "" && (t[0] == '-' || t[0] == '+');
    var u := if signed then t[1..] else t;
    var k := LeadingDigits(u);
    if k == 0 then None
    else
      var v := (if signed && t[0] == '-' then -1 else 1) * (Value(u[..k]) as int);
      if -INT_MAX - 1 <= v <= INT_MAX then Some(v) else None
  }

  // With the real conversion the two parsers are one function.
  lemma ParsersAgree(text: string)
    ensures GetlineList(text, Stoi) == FindList(text, Stoi)
  {
    assert Stoi("") == None;
    ParsersAgreeIff(Stoi);
  }

  // --- round trip -------------------------------------------------------------

  function Decimal(n: nat): (s: string)
    ensures s != "" && forall i :: 0 <= i < |s| ==> IsDigit(s[i])
  {
    if n < 10 then ['0' + n as char] else Decimal(n / 10) + ['0' + (n % 10) as char]
  }

  lemma {:induction false} ValueOfDecimal(n: nat)
    ensures Value(Decimal(n)) == n
  {
    if n < 10 {
      assert Decimal(n)[..0] == "";
    } else {
      ValueOfDecimal(n / 10);
      assert Decimal(n)[..|Decimal(n)| - 1] == Decimal(n / 10);
    }
  }

  lemma {:induction false} AllDigits(s: string)
    requires forall i :: 0 <= i < |s| ==> IsDigit(s[i])
    ensures LeadingDigits(s) == |s|
    decreases |s|
  {
    if s != "" {
      AllDigits(s[1..]);
    }
  }

  lemma StoiOfDecimal(n: nat)
    requires n <= INT_MAX
    ensures Stoi(Decimal(n)) == Some(n)
  {
    var s := Decimal(n);
    AllDigits(s);
    ValueOfDecimal(n);
    assert IsDigit(s[0]);
    assert SkipSpaces(s) == s && s[..|s|] == s;
  }

  // An entry of the list format of cpuset(7).
  datatype Entry = One(n: nat) | Span(lo: nat, hi: nat)

  predicate Representable(e: Entry) {
    match e
    case One(n) => n <= INT_MAX
    case Span(lo, hi) => lo <= hi <= INT_MAX
  }

  function Show(e: Entry): string {
    match e
    case One(n) => Decimal(n)
    case Span(lo, hi) => Decimal(lo) + ['-'] + Decimal(hi)
  }

  function Join(entries: seq<Entry>): string
    decreases |entries|
  {
    if entries == [] then ""
    else if |entries| == 1 then Show(entries[0])
    else Show(entries[0]) + "," + Join(entries[1..])
  }

  function EntryCpus(e: Entry): seq<int> {
    match e case One(n) => [n] case Span(lo, hi) => Range(lo, hi)
  }

  function Expand(entries: seq<Entry>): seq<int>
    decreases |entries|
  {
    if entries == [] then []
    else EntryCpus(entries[0]) + Expand(entries[1..])
  }

  lemma {:induction false} FindAfter(a: string, c: char, b: string)
    requires forall i :: 0 <= i < |a| ==> a[i] != c
    ensures Find(a + [c] + b, c) == |a| && Find(a, c) == |a|
    decreases |a|
  {
    if a != "" {
      assert (a + [c] + b)[1..] == a[1..] + [c] + b;
      FindAfter(a[1..], c, b);
    }
  }

  lemma OneMeans(n: nat)
    requires n <= INT_MAX
    ensures TokenCpus(Decimal(n), Stoi) == Some([n as int])
  {
    FindAfter(Decimal(n), '-', "");
    StoiOfDecimal(n);
  }

  lemma SpanMeans(a: string, b: string, lo: int, hi: int)
    requires forall i :: 0 <= i < |a| ==> a[i] != '-'
    requires Stoi(a) == Some(lo) && Stoi(b) == Some(hi) && lo <= hi
    ensures TokenCpus(a + ['-'] + b, Stoi) == Some(Range(lo, hi))
  {
    hide Stoi;
    FindAfter(a, '-', b);
    assert (a + ['-'] + b)[..|a|] == a && (a + ['-'] + b)[|a| + 1..] == b;
  }

  lemma ShowMeans(e: Entry)
    requires Representable(e)
    ensures TokenCpus(Show(e), Stoi) == Some(EntryCpus(e))
  {
    match e
    case One(n) => OneMeans(n);
    case Span(lo, hi) =>
      StoiOfDecimal(lo);
      StoiOfDecimal(hi);
      hide Stoi, TokenCpus, Decimal;
      SpanMeans(Decimal(lo), Decimal(hi), lo, hi);
  }

  lemma ShowHasNoComma(e: Entry)
    ensures Show(e) != "" && forall i :: 0 <= i < |Show(e)| ==> Show(e)[i] != ','
  {
  }

  lemma JoinSplits(entries: seq<Entry>)
    requires entries != []
    ensures Tokens(Join(entries)) == [Show(entries[0])] + Tokens(Join(entries[1..]))
  {
    var first, rest := Show(entries[0]), Join(entries[1..]);
    ShowHasNoComma(entries[0]);
    FindAfter(first, ',', rest);
    hide Show, Find;
    if |entries| == 1 {
      assert Join(entries[1..]) == "";
    } else {
      var text := first + [','] + rest;
      assert Join(entries) == text;
      assert text[..|first|] == first && text[|first| + 1..] == rest;
    }
  }

  lemma {:induction false} CollectJoin(entries: seq<Entry>)
    requires forall k :: 0 <= k < |entries| ==> Representable(entries[k])
    ensures Collect(Tokens(Join(entries)), Stoi) == Some(Expand(entries))
    decreases |entries|
  {
    if entries != [] {
      var first, rest := Show(entries[0]), Tokens(Join(entries[1..]));
      JoinSplits(entries);
      ShowMeans(entries[0]);
      hide Tokens, TokenCpus, Stoi, Join, Show;
      CollectJoin(entries[1..]);
      assert ([first] + rest)[1..] == rest;
    }
  }

  // Every comma-joined list of numbers and ascending ranges is read back, by
  // both parsers, as the concatenated ranges.
  lemma ListsRoundTrip(entries: seq<Entry>)
    requires forall k :: 0 <= k < |entries| ==> Representable(entries[k])
    ensures GetlineList(Join(entries), Stoi) == Expand(entries)
    ensures FindList(Join(entries), Stoi) == Expand(entries)
  {
    CollectJoin(entries);
    ParsersAgree(Join(entries));
  }

  // --- any tokens -------------------------------------------------------------

  predicate HasNoComma(token: string) {
    forall i :: 0 <= i < |token| ==> token[i] != ','
  }

  function JoinTokens(tokens: seq<string>): string
    decreases |tokens|
  {
    if tokens == [] then ""
    else if |tokens| == 1 then tokens[0]
    else tokens[0] + [','] + JoinTokens(tokens[1..])
  }

  // Whatever the tokens, empty ones included, their join is cut up again; only an
  // empty last token is not found.
  lemma {:induction false} TokensOfJoin(tokens: seq<string>)
    requires forall k :: 0 <= k < |tokens| ==> HasNoComma(tokens[k])
    requires tokens != [] ==> tokens[|tokens| - 1] != ""
    ensures Tokens(JoinTokens(tokens)) == tokens
    decreases |tokens|
  {
    if |tokens| == 1 {
      FindAfter(tokens[0], ',', "");
    } else if tokens != [] {
      var first, rest := tokens[0], JoinTokens(tokens[1..]);
      TokensOfJoin(tokens[1..]);
      FindAfter(first, ',', rest);
      var text := first + [','] + rest;
      assert text[..|first|] == first && text[|first| + 1..] == rest;
    }
  }

  lemma {:induction false} FindInLonger(text: string)
    ensures Find(text + [','], ',') == Find(text, ',')
    decreases |text|
  {
    if text != "" {
      assert (text + [','])[1..] == text[1..] + [','];
      FindInLonger(text[1..]);
    }
  }

  // A comma at the end of a list changes nothing.
  lemma {:induction false} TrailingComma(text: string)
    requires text != "" && text[|text| - 1] != ','
    ensures Tokens(text + [',']) == Tokens(text)
    decreases |text|
  {
    var k, longer := Find(text, ','), text + [','];
    FindInLonger(text);
    if k == |text| {
      assert longer[..k] == text && longer[k + 1..] == "";
    } else {
      assert longer[..k] == text[..k] && longer[k + 1..] == text[k + 1..] + [','];
      TrailingComma(text[k + 1..]);
    }
  }

  lemma {:induction false} OneFailureFailsAll(tokens: seq<string>, k: nat, stoi: string -> Option<int>)
    requires k < |tokens| && TokenCpus(tokens[k], stoi) == None
    ensures Collect(tokens, stoi) == None
    decreases |tokens|
  {
    if k > 0 {
      OneFailureFailsAll(tokens[1..], k - 1, stoi);
    }
  }

  lemma Descending(lo: nat, hi: nat)
    requires hi < lo <= INT_MAX
    ensures TokenCpus(Decimal(lo) + ['-'] + Decimal(hi), Stoi) == None
  {
    var a, b := Decimal(lo), Decimal(hi);
    StoiOfDecimal(lo);
    StoiOfDecimal(hi);
    FindAfter(a, '-', b);
    assert (a + ['-'] + b)[..|a|] == a && (a + ['-'] + b)[|a| + 1..] == b;
    hide Stoi, Decimal;
  }

  // A single descending range, or a token the conversion rejects, empties the list.
  lemma BadTokenEmptiesList(tokens: seq<string>, k: nat, lo: nat, hi: nat)
    requires forall i :: 0 <= i < |tokens| ==> HasNoComma(tokens[i])
    requires k < |tokens| && tokens[|tokens| - 1] != ""
    requires (tokens[k] == Decimal(lo) + ['-'] + Decimal(hi) && hi < lo <= INT_MAX)
             || (Find(tokens[k], '-') == |tokens[k]| && Stoi(tokens[k]) == None)
    ensures GetlineList(JoinTokens(tokens), Stoi) == [] && FindList(JoinTokens(tokens), Stoi) == []
  {
    TokensOfJoin(tokens);
    if tokens[k] == Decimal(lo) + ['-'] + Decimal(hi) && hi < lo <= INT_MAX {
      Descending(lo, hi);
    }
    hide Stoi, Tokens, JoinTokens, Decimal;
    OneFailureFailsAll(tokens, k, Stoi);
    ParsersAgree(JoinTokens(tokens));
  }

  // --- what stoi accepts ------------------------------------------------------

  lemma {:induction false} SkipsSpaces(spaces: string, t: string)
    requires (forall i :: 0 <= i < |spaces| ==> IsSpace(spaces[i])) && (t == "" || !IsSpace(t[0]))
    ensures SkipSpaces(spaces + t) == t
    decreases |spaces|
  {
    if spaces == "" {
      assert spaces + t == t;
    } else {
      assert (spaces + t)[1..] == spaces[1..] + t;
      SkipsSpaces(spaces[1..], t);
    }
  }

  lemma {:induction false} DigitsThenRest(digits: string, rest: string)
    requires (forall i :: 0 <= i < |digits| ==> IsDigit(digits[i])) && (rest == "" || !IsDigit(rest[0]))
    ensures LeadingDigits(digits + rest) == |digits|
    decreases |digits|
  {
    if digits == "" {
      assert digits + rest == rest;
    } else {
      assert (digits + rest)[1..] == digits[1..] + rest;
      DigitsThenRest(digits[1..], rest);
    }
  }

  // White space, a sign, a number and anything that does not continue it: the
  // signed number, if it is an int.
  lemma StoiReads(spaces: string, sign: string, n: nat, rest: string)
    requires forall i :: 0 <= i < |spaces| ==> IsSpace(spaces[i])
    requires sign == "" || sign == "+" || sign == "-"
    requires rest == "" || !IsDigit(rest[0])
    ensures sign != "-" ==>
              Stoi(spaces + (sign + (Decimal(n) + rest))) == if n <= 2147483647 then Some(n as int) else None
    ensures sign == "-" ==>
              Stoi(spaces + (sign + (Decimal(n) + rest))) == if n <= 2147483648 then Some(-1 * n as int) else None
  {
    hide Decimal, Value, SkipSpaces, LeadingDigits;
    var digits := Decimal(n);
    var number := digits + rest;
    var t := sign + number;
    assert IsDigit(digits[0]) && number[0] == digits[0];
    assert sign == "" ==> t == number;
    assert sign != "" ==> t[0] == sign[0] && t[1..] == number;
    SkipsSpaces(spaces, t);
    DigitsThenRest(digits, rest);
    ValueOfDecimal(n);
    assert number[..|digits|] == digits;
  }

  // Without a digit after white space and sign there is no number.
  lemma StoiRejects(spaces: string, sign: string, rest: string)
    requires forall i :: 0 <= i < |spaces| ==> IsSpace(spaces[i])
    requires sign == "" || sign == "+" || sign == "-"
    requires rest == "" || (!IsDigit(rest[0]) && !IsSpace(rest[0]) && rest[0] != '+' && rest[0] != '-')
    ensures Stoi(spaces + (sign + rest)) == None
  {
    var t := sign + rest;
    assert sign == "" ==> t == rest;
    assert sign != "" ==> t[0] == sign[0] && t[1..] == rest;
    SkipsSpaces(spaces, t);
    assert LeadingDigits(rest) == 0;
    hide SkipSpaces, Value;
  }

  lemma NoSpaces(s: string)
    requires s != "" && IsDigit(s[0])
    ensures SkipSpaces(s) == s
  {
  }

  lemma StoiOfDigits(s: string)
    requires s != "" && forall i :: 0 <= i < |s| ==> IsDigit(s[i])
    ensures Stoi(s) == if Value(s) <= 2147483647 then Some(Value(s) as int) else None
  {
    hide Value, LeadingDigits, SkipSpaces;
    AllDigits(s);
    assert IsDigit(s[0]);
    NoSpaces(s);
    assert s[..|s|] == s;
  }

  // The digits are decimal: one more digit multiplies by ten.
  lemma StoiShifts(s: string, c: char)
    requires forall i :: 0 <= i < |s| ==> IsDigit(s[i])
    requires IsDigit(c)
    ensures s == "" ==> Stoi(s + [c]) == Some((c - '0') as int)
    ensures s != "" && Stoi(s) != None && 10 * Stoi(s).value + (c - '0') as int <= 2147483647 ==>
              Stoi(s + [c]) == Some(10 * Stoi(s).value + (c - '0') as int)
  {
    var longer := s + [c];
    assert longer[..|longer| - 1] == s && longer[|longer| - 1] == c;
    assert Value(longer) == 10 * Value(s) + (c - '0') as int;
    StoiOfDigits(longer);
    if s == "" {
      assert Value(s) == 0;
    } else {
      StoiOfDigits(s);
    }
    hide Stoi, Value;
  }
}
