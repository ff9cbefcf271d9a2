/** The command-line helpers (args.c). `argv` is a sequence of terminated
    wide strings; a pointer into an argument is modelled as the suffix it
    points at. */
module Args {
  import opened Platform
  import opened Lib

  predicate AllNoNul(argv: seq<string>) { forall k :: 0 <= k < |argv| ==> NoNul(argv[k]) }

  // ---------------------------------------------------------------- get_opt

  /** `get_opt`: the first index whose argument equals `opt`, or -1. */
  method GetOpt(argv: seq<string>, opt: string) returns (r: int)
    requires AllNoNul(argv) && NoNul(opt)
    ensures -1 <= r < |argv|
    ensures r == -1 <==> opt !in argv
    ensures r >= 0 ==> argv[r] == opt && forall j :: 0 <= j < r ==> argv[j] != opt
  {
    var i := 0;
    while i < |argv|
      invariant i <= |argv|
      invariant forall j :: 0 <= j < i ==> argv[j] != opt
    {
      var eq := WstrEq(argv[i], opt);
      if eq {
        return i;
      }
      i := i + 1;
    }
    return -1;
  }

  // ---------------------------------------------------------------- get_arg

  /** Size of the local buffer that holds "name=". */
  const ARG_BUF_LEN: nat := 256

  /** What `get_arg` returns once the name fits its buffer: the first argument
      in which "name=" is found (by `find_wstr`, anywhere in it) yields the
      suffix that starts len(name)+1 characters after the START of that
      argument, not after the match. */
  function ArgValue(argv: seq<string>, name: string): Option<string>
  {
    if argv == [] then None
    else
      var key := name + "=";
      var idx := Search(argv[0], key);
      if idx != -1 then
        SearchSound(argv[0], key);
        Some(argv[0][|key|..])
      else ArgValue(argv[1..], name)
  }

  /** The intended use: an argument that begins with "name=" gives the text after '='. */
  lemma {:induction false} ArgValueOfLeadingName(argv: seq<string>, name: string, i: nat)
    requires i < |argv| && |name| + 1 <= |argv[i]| && argv[i][..|name| + 1] == name + "="
    requires forall j :: 0 <= j < i ==> Search(argv[j], name + "=") == -1
    ensures ArgValue(argv, name) == Some(argv[i][|name| + 1..])
  {
    if i == 0 {
      SearchFindsPrefix(argv[0], name + "=");
    } else {
      ArgValueOfLeadingName(argv[1..], name, i - 1);
    }
  }

  /** As coded: a match in the middle of an argument still yields the suffix at
      offset len(name)+1 from the argument's start. */
  lemma ArgValueCountsFromArgumentStart()
    ensures ArgValue(["x-fps=30"], "fps") == Some("s=30")
  {
    var s, key := "x-fps=30", "fps=";
    assert SearchFrom(s, key, 8, 4, 2) == 2;
    assert SearchFrom(s, key, 7, 4, 2) == 2;
    assert SearchFrom(s, key, 6, 4, 2) == 2;
    assert SearchFrom(s, key, 5, 3, 2) == 2;
    assert SearchFrom(s, key, 4, 2, 2) == 2;
    assert SearchFrom(s, key, 3, 1, 2) == 2;
    assert SearchFrom(s, key, 2, 0, 2) == 2;
    assert SearchFrom(s, key, 1, 0, 1) == 2;
    assert Search(s, key) == 2;
    assert s[4..] == "s=30";
  }

  /** `get_arg`. None when len(name)+1 does not fit the 256-character buffer. */
  method GetArg(argv: seq<string>, name: string) returns (r: Option<string>)
    requires AllNoNul(argv) && NoNul(name)
    ensures |name| + 1 >= ARG_BUF_LEN ==> r == None
    ensures |name| + 1 < ARG_BUF_LEN ==> r == ArgValue(argv, name)
  {
    var buf := new char[ARG_BUF_LEN](_ => NUL);
    var nameLen := |name|;
    var bufLen := nameLen + 1;
    if bufLen >= ARG_BUF_LEN {
      // a name this long is logged as an error
      return None;
    }
    var _ := CopyWstr(buf, name);
    buf[nameLen] := '=';
    var key := buf[..bufLen];
    assert key == name + "=" by {
      assert forall k :: 0 <= k < nameLen ==> key[k] == name[k];
    }
    assert At(buf[..], bufLen) == NUL;
    var i := 0;
    while i < |argv|
      invariant i <= |argv|
      invariant ArgValue(argv, name) == ArgValue(argv[i..], name)
    {
      var idx := FindWstr(argv[i], key);
      assert argv[i..][0] == argv[i] && argv[i..][1..] == argv[i + 1..];
      if idx != -1 {
        return Some(argv[i][bufLen..]);
      }
      i := i + 1;
    }
    return None;
  }

  // ---------------------------------------------------------------- get_non_opt

  /** An argument that is not an option: non-empty and not starting with '-'. */
  predicate IsNonOpt(arg: string) { arg != [] && arg[0] != '-' }

  /** `get_non_opt`: the first index at or after `startIdx` whose argument is
      non-empty and does not start with '-', or -1. (The header comment
      describes the opposite; this is what the code does.) */
  method GetNonOpt(argv: seq<string>, startIdx: nat) returns (r: int)
    requires AllNoNul(argv)
    ensures r == -1 || startIdx <= r < |argv|
    ensures r == -1 <==> forall j :: startIdx <= j < |argv| ==> !IsNonOpt(argv[j])
    ensures r >= 0 ==> IsNonOpt(argv[r]) && forall j :: startIdx <= j < r ==> !IsNonOpt(argv[j])
  {
    var i := startIdx;
    while i < |argv|
      invariant startIdx <= i
      invariant forall j :: startIdx <= j < i && j < |argv| ==> !IsNonOpt(argv[j])
    {
      var arg := argv[i];
      if At(arg, 0) != NUL && At(arg, 0) != '-' {
        return i;
      }
      i := i + 1;
    }
    return -1;
  }

  // ---------------------------------------------------------------- wstr_to_ui

  const UINT_RANGE: nat := 0x1_0000_0000

  predicate IsDigit(c: char) { '0' <= c <= '9' }

  /** Length of the leading run of decimal digits of s. */
  function DigitRun(s: string): (n: nat)
    ensures n <= |s|
    ensures forall k :: 0 <= k < n ==> IsDigit(s[k])
    ensures n < |s| ==> !IsDigit(s[n])
  {
    if s == [] || !IsDigit(s[0]) then 0 else 1 + DigitRun(s[1..])
  }

  /** The decimal value of a string of digits. */
  function DecimalValue(ds: string): nat
    requires forall k :: 0 <= k < |ds| ==> IsDigit(ds[k])
  {
    if ds == [] then 0
    else
      assert IsDigit(ds[|ds| - 1]);
      DecimalValue(ds[..|ds| - 1]) * 10 + (ds[|ds| - 1] as int - '0' as int)
  }

  /** The result of `wstr_to_ui`. */
  datatype ConvertResult = ConvertResult(ui: nat, endIdx: nat, isValid: bool)

  lemma ModStep(x: nat, d: nat)
    ensures ((x % UINT_RANGE) * 10 + d) % UINT_RANGE == (x * 10 + d) % UINT_RANGE
  {
    var q := x / UINT_RANGE;
    assert x == q * UINT_RANGE + x % UINT_RANGE;
    assert x * 10 + d == ((x % UINT_RANGE) * 10 + d) + (q * 10) * UINT_RANGE;
  }

  /** `wstr_to_ui`: `endIdx` is the length of the leading digit run, the result
      is valid exactly when that run is non-empty, and `ui` is the run's decimal
      value reduced modulo 2^32 (unsigned int arithmetic). */
  method WstrToUi(str: string) returns (out: ConvertResult)
    requires NoNul(str)
    ensures out.endIdx == DigitRun(str)
    ensures out.isValid <==> out.endIdx > 0
    ensures out.ui == DecimalValue(str[..out.endIdx]) % UINT_RANGE
  {
    out := ConvertResult(0, 0, false);
    var i := 0;
    ghost var n := DigitRun(str);
    while At(str, i) != NUL && IsDigit(At(str, i))
      invariant i <= n
      invariant out.ui == DecimalValue(str[..i]) % UINT_RANGE
      invariant out.isValid <==> i > 0
      invariant out.endIdx == 0
      decreases |str| - i
    {
      assert str[..i + 1][..i] == str[..i];
      ModStep(DecimalValue(str[..i]), str[i] as int - '0' as int);
      out := out.(isValid := true, ui := (out.ui * 10 + (str[i] as int - '0' as int)) % UINT_RANGE);
      i := i + 1;
    }
    out := out.(endIdx := i);
  }
}
