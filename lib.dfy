/** The freestanding C runtime helpers of the program (lib.c): wide-string
    search, copy, comparison, the path basename, the byte helpers, the GUID
    name lookup and the HRESULT check. A wide string is modelled as the
    characters before its terminator, so it holds no NUL. */
module Lib {
  import opened Platform

  const NUL: char := '\0'
  const BACKSLASH: char := '\\'

  newtype byte = x: int | 0 <= x < 256

  /** The characters of a terminated wide string: no NUL before the end. */
  predicate NoNul(s: string) { forall k :: 0 <= k < |s| ==> s[k] != NUL }

  /** The character at index i of the terminated string s (its terminator past the end). */
  function At(s: string, i: nat): char { if i < |s| then s[i] else NUL }

  /** s occurs in str at offset r. */
  predicate OccursAt(str: string, sub: string, r: int)
  {
    0 <= r && r + |sub| <= |str| && str[r..r + |sub|] == sub
  }

  // ---------------------------------------------------------------- check_hresult

  /** `check_hresult`: only S_OK itself lets the program go on; every other
      code, success codes such as S_FALSE included, exits with that code. */
  function CheckHResult(code: int): (f: Flow)
    ensures f == Continue <==> code == S_OK
    ensures f.Exit? ==> f.code == code
  {
    if code == S_OK then Continue else Exit(code)
  }

  lemma SuccessCodeOtherThanOkExits()
    ensures Succeeded(S_FALSE) && CheckHResult(S_FALSE) == Exit(S_FALSE)
  {
  }

  // ---------------------------------------------------------------- find_wstr

  /** The scan of `find_wstr` from position i, with sub_i characters of
      `sub` matched since `start`. After a mismatch the scan restarts at the
      NEXT character: the mismatching one is not compared with sub[0] again. */
  function SearchFrom(str: string, sub: string, i: nat, subI: nat, start: nat): int
    requires i <= |str| && subI <= |sub|
    decreases |str| - i
  {
    if i == |str| then (if subI == |sub| then start else -1)
    else if subI == |sub| then start
    else if str[i] == sub[subI] then SearchFrom(str, sub, i + 1, subI + 1, start)
    else SearchFrom(str, sub, i + 1, 0, i + 1)
  }

  /** What `find_wstr(str, sub)` returns. */
  function Search(str: string, sub: string): int
  {
    SearchFrom(str, sub, 0, 0, 0)
  }

  lemma {:induction false} SearchFromSound(str: string, sub: string, i: nat, subI: nat, start: nat)
    requires i <= |str| && subI <= |sub|
    requires start + subI == i && str[start..i] == sub[..subI]
    ensures SearchFrom(str, sub, i, subI, start) == -1 || OccursAt(str, sub, SearchFrom(str, sub, i, subI, start))
    decreases |str| - i
  {
    if i == |str| {
    } else if subI == |sub| {
    } else if str[i] == sub[subI] {
      assert str[start..i + 1] == str[start..i] + [str[i]];
      assert sub[..subI + 1] == sub[..subI] + [sub[subI]];
      SearchFromSound(str, sub, i + 1, subI + 1, start);
    } else {
      SearchFromSound(str, sub, i + 1, 0, i + 1);
    }
  }

  /** `find_wstr` is sound: a non-negative answer is an offset where `sub` occurs. */
  lemma SearchSound(str: string, sub: string)
    ensures Search(str, sub) == -1 || OccursAt(str, sub, Search(str, sub))
  {
    SearchFromSound(str, sub, 0, 0, 0);
  }

  lemma {:induction false} SearchFromPrefix(str: string, sub: string, i: nat)
    requires i <= |sub| <= |str| && str[..|sub|] == sub
    ensures SearchFrom(str, sub, i, i, 0) == 0
    decreases |str| - i
  {
    if i < |str| && i < |sub| {
      assert str[i] == str[..|sub|][i];
      SearchFromPrefix(str, sub, i + 1);
    }
  }

  /** An empty `sub` is found at 0, and so is any `sub` that starts `str`. */
  lemma SearchFindsPrefix(str: string, sub: string)
    requires |sub| <= |str| && str[..|sub|] == sub
    ensures Search(str, sub) == 0
  {
    SearchFromPrefix(str, sub, 0);
  }

  /** `find_wstr` is not complete: "ab" occurs in "aab" at 1, yet it returns -1. */
  lemma SearchIncomplete()
    ensures OccursAt("aab", "ab", 1) && Search("aab", "ab") == -1
  {
    assert "aab"[1..3] == "ab";
  }

  /** `find_wstr`, as the index loop of lib.c:274-301. */
  method FindWstr(str: string, sub: string) returns (r: int)
    requires NoNul(str) && NoNul(sub)
    ensures r == Search(str, sub)
    ensures r == -1 || OccursAt(str, sub, r)
  {
    var i: nat, subI: nat, start: nat := 0, 0, 0;
    while At(str, i) != NUL
      invariant i <= |str| && subI <= |sub|
      invariant SearchFrom(str, sub, i, subI, start) == Search(str, sub)
      decreases |str| - i
    {
      if At(sub, subI) == NUL {
        SearchSound(str, sub);
        return start;
      }
      if str[i] == sub[subI] {
        subI := subI + 1;
      } else {
        subI := 0;
        start := i + 1;
      }
      i := i + 1;
    }
    SearchSound(str, sub);
    if At(sub, subI) == NUL {
      return start;
    }
    return -1;
  }

  // ---------------------------------------------------------------- copy_wstr

  /** `copy_wstr`: copies `src` and its terminator to the front of `dest` and
      returns `dest`; the rest of `dest` is untouched. */
  method CopyWstr(dest: array<char>, src: string) returns (r: array<char>)
    requires NoNul(src) && |src| < dest.Length
    modifies dest
    ensures r == dest
    ensures dest[..|src|] == src && dest[|src|] == NUL
    ensures dest[|src| + 1..] == old(dest[|src| + 1..])
  {
    var i := 0;
    dest[i] := At(src, i);
    while dest[i] != NUL
      invariant 0 <= i <= |src| && dest[i] == At(src, i)
      invariant dest[..i] == src[..i]
      invariant dest[i + 1..] == old(dest[i + 1..])
      decreases |src| - i
    {
      i := i + 1;
      dest[i] := At(src, i);
    }
    return dest;
  }

  // ---------------------------------------------------------------- wstr_eq

  /** `wstr_eq`: true exactly when both strings have the same characters and length. */
  method WstrEq(s1: string, s2: string) returns (r: bool)
    requires NoNul(s1) && NoNul(s2)
    ensures r <==> s1 == s2
  {
    var i := 0;
    while At(s1, i) != NUL && At(s2, i) != NUL
      invariant i <= |s1| && i <= |s2| && s1[..i] == s2[..i]
      decreases |s1| - i
    {
      if s1[i] != s2[i] {
        return false;
      }
      i := i + 1;
    }
    r := At(s1, i) == At(s2, i);
    if i < |s1| || i < |s2| {
      assert |s1| != |s2|;
    } else {
      assert s1 == s1[..i] && s2 == s2[..i];
    }
  }

  // ---------------------------------------------------------------- basename

  /** `basename`: the offset of the suffix after the last backslash, 0 when there is none. */
  method Basename(path: string) returns (start: nat)
    requires NoNul(path)
    ensures start <= |path|
    ensures forall k :: start <= k < |path| ==> path[k] != BACKSLASH
    ensures start > 0 ==> path[start - 1] == BACKSLASH
  {
    var i: int := |path|;
    var stop := false;
    while i >= 0 && !stop
      invariant -1 <= i <= |path|
      invariant stop ==> 0 <= i + 1 < |path| && path[i + 1] == BACKSLASH
      invariant forall k :: i < k < |path| && !(stop && k == i + 1) ==> path[k] != BACKSLASH
      decreases i + 1, !stop
    {
      stop := At(path, i) == BACKSLASH;
      i := i - 1;
    }
    if At(path, i + 1) == BACKSLASH {
      start := i + 2;
    } else {
      start := i + 1;
    }
  }

  // ---------------------------------------------------------------- memcmp, memset, memcpy

  /** `memcmp`: 0 exactly when the first `num` bytes agree; otherwise the
      difference of the first pair that differs. */
  method Memcmp(p1: seq<byte>, p2: seq<byte>, num: nat) returns (r: int)
    requires num <= |p1| && num <= |p2|
    ensures r == 0 <==> p1[..num] == p2[..num]
    ensures r != 0 ==> exists k :: 0 <= k < num && p1[..k] == p2[..k] && p1[k] != p2[k] && r == p1[k] as int - p2[k] as int
  {
    var i := 0;
    while i < num
      invariant i <= num && p1[..i] == p2[..i]
    {
      var c1, c2 := p1[i], p2[i];
      if c1 != c2 {
        assert p1[..num][i] != p2[..num][i];
        return c1 as int - c2 as int;
      }
      assert p1[..i + 1] == p1[..i] + [c1];
      assert p2[..i + 1] == p2[..i] + [c2];
      i := i + 1;
    }
    return 0;
  }

  /** The unsigned char conversion of c: its low eight bits. */
  function ToByte(c: int): byte { (c % 256) as byte }

  /** `memset`: the first `count` bytes of `dest` become the low eight bits of `c`,
      the rest is untouched, and `dest` is returned. */
  method Memset(dest: array<byte>, c: int, count: nat) returns (r: array<byte>)
    requires count <= dest.Length
    modifies dest
    ensures r == dest
    ensures forall k :: 0 <= k < count ==> dest[k] == ToByte(c)
    ensures dest[count..] == old(dest[count..])
  {
    var i := 0;
    while i < count
      invariant i <= count
      invariant forall k :: 0 <= k < i ==> dest[k] == ToByte(c)
      invariant dest[count..] == old(dest[count..])
    {
      dest[i] := ToByte(c);
      i := i + 1;
    }
    return dest;
  }

  /** `memcpy`: the first `count` bytes of `src` are copied to `dest`, the rest
      of `dest` is untouched, and `dest` is returned. */
  method Memcpy(dest: array<byte>, src: array<byte>, count: nat) returns (r: array<byte>)
    requires count <= dest.Length && count <= src.Length
    modifies dest
    ensures r == dest
    ensures dest[..count] == old(src[..count])
    ensures dest[count..] == old(dest[count..])
  {
    var i := 0;
    while i < count
      invariant i <= count
      invariant dest[..i] == old(src[..i])
      invariant forall k :: i <= k < src.Length ==> src[k] == old(src[k])
      invariant dest[count..] == old(dest[count..])
    {
      dest[i] := src[i];
      assert dest[..i + 1] == dest[..i] + [dest[i]];
      i := i + 1;
    }
    return dest;
  }

  // ---------------------------------------------------------------- get_guid_name

  /** One row of the diagnostic name table: a GUID and its symbolic name. */
  datatype GuidName = GuidName(guid: Guid, name: string)

  /** `get_guid_name`: the name of the first table row equal to `guid`, None when there is none. */
  method GetGuidName(table: seq<GuidName>, guid: Guid) returns (r: Option<string>)
    ensures r.None? <==> forall k :: 0 <= k < |table| ==> table[k].guid != guid
    ensures r.Some? ==> exists k :: 0 <= k < |table| && table[k].guid == guid && r.value == table[k].name
                                    && forall j :: 0 <= j < k ==> table[j].guid != guid
  {
    var i := 0;
    while i < |table|
      invariant i <= |table|
      invariant forall j :: 0 <= j < i ==> table[j].guid != guid
    {
      if table[i].guid == guid {
        return Some(table[i].name);
      }
      i := i + 1;
    }
    return None;
  }
}
