/**
 The string rewriting behind the processor's default output path: every
 `{...}` tag group is cut out of the input path (a non-greedy match that
 does not cross a line break, as the regular expression `/{(.*?)}/g`
 does), then the first occurrence of the entry folder is replaced by the
 output folder (`String.prototype.replace` with a string pattern).
 */
module OutputPaths {
  import opened Wrappers

  /** The characters JavaScript's `.` does not match. */
  predicate IsLineTerminator(c: char)
  {
    c == '\n' || c == '\r' || c == '\U{2028}' || c == '\U{2029}'
  }

  /** `t` contains a line terminator. */
  predicate HasLineTerminator(t: string)
  {
    exists m :: 0 <= m < |t| && IsLineTerminator(t[m])
  }

  /**
   Where the group opened just before `s` closes: the index of the first `}`
   in `s`, provided no line terminator comes before it.
   */
  function CloseOf(s: string): (r: Option<nat>)
    ensures r.Some? ==> r.value < |s| && s[r.value] == '}'
    ensures r.Some? ==> forall m :: 0 <= m < r.value ==> s[m] != '}' && !IsLineTerminator(s[m])
    ensures r.None? ==> forall k :: 0 <= k < |s| && s[k] == '}' ==> HasLineTerminator(s[..k])
  {
    if s == [] then None
    else if s[0] == '}' then Some(0)
    else if IsLineTerminator(s[0]) then
      assert forall k :: 0 < k < |s| ==> s[..k][0] == s[0];
      None
    else
      match CloseOf(s[1..])
      case Some(j) => Some(j + 1)
      case None =>
        assert forall k :: 0 <= k < |s| && s[k] == '}' ==> HasLineTerminator(s[..k]) by {
          forall k | 0 <= k < |s| && s[k] == '}'
            ensures HasLineTerminator(s[..k])
          {
            assert k > 0 && s[1..][k - 1] == '}';
            var t := s[1..][..k - 1];
            assert HasLineTerminator(t);
            var m :| 0 <= m < |t| && IsLineTerminator(t[m]);
            assert s[..k][m + 1] == t[m];
          }
        }
        None
  }

  /** No `{` of `s` opens a group that the regular expression would remove. */
  predicate GroupFree(s: string)
  {
    forall i :: 0 <= i < |s| && s[i] == '{' ==> CloseOf(s[i + 1..]).None?
  }

  /** The path with every `{...}` group removed, scanning left to right. */
  function StripGroups(s: string): (r: string)
    ensures |r| <= |s|
    decreases |s|
  {
    if s == [] then []
    else if s[0] == '{' && CloseOf(s[1..]).Some? then StripGroups(s[CloseOf(s[1..]).value + 2..])
    else [s[0]] + StripGroups(s[1..])
  }

  /** A group body holding no `}` and no line break is closed by the `}` right after it. */
  lemma {:induction false} CloseOfGroup(g: string, rest: string)
    requires forall m :: 0 <= m < |g| ==> g[m] != '}' && !IsLineTerminator(g[m])
    ensures CloseOf(g + "}" + rest) == Some(|g|)
    decreases |g|
  {
    var s := g + "}" + rest;
    if g != [] {
      assert s[1..] == g[1..] + "}" + rest;
      CloseOfGroup(g[1..], rest);
    }
  }

  /** A group holding no `}` and no line break is removed as a whole, together with its braces. */
  lemma StripGroupsRemovesGroup(g: string, rest: string)
    requires forall m :: 0 <= m < |g| ==> g[m] != '}' && !IsLineTerminator(g[m])
    ensures StripGroups("{" + g + "}" + rest) == StripGroups(rest)
  {
    var s := "{" + g + "}" + rest;
    assert s[1..] == g + "}" + rest;
    CloseOfGroup(g, rest);
    assert s[|g| + 2..] == rest;
  }

  /** If no group opens at the start of `t`, cutting groups out of `t` cannot make one open there. */
  lemma {:induction false} StripGroupsKeepsOpenEnd(t: string)
    requires CloseOf(t).None?
    ensures CloseOf(StripGroups(t)).None?
    decreases |t|
  {
    if t != [] {
      if IsLineTerminator(t[0]) {
        var r := StripGroups(t);
        assert r == [t[0]] + StripGroups(t[1..]);
        assert r[..0] == [];
        assert CloseOf(r) == None;
      } else {
        assert CloseOf(t[1..]).None?;
        StripGroupsKeepsOpenEnd(t[1..]);
        var r := StripGroups(t);
        assert r == [t[0]] + StripGroups(t[1..]);
        assert r[1..] == StripGroups(t[1..]);
      }
    }
  }

  /** Prefixing a character other than `{` preserves group-freedom. */
  lemma ConsGroupFree(c: char, r: string)
    requires GroupFree(r) && c != '{'
    ensures GroupFree([c] + r)
  {
    var s := [c] + r;
    forall i | 0 <= i < |s| && s[i] == '{'
      ensures CloseOf(s[i + 1..]).None?
    {
      assert i > 0;
      assert s[i] == r[i - 1];
      assert s[i + 1..] == r[i..];
    }
  }

  /** The result of removing groups contains no removable group. */
  lemma {:induction false} StripGroupsGroupFree(s: string)
    ensures GroupFree(StripGroups(s))
    decreases |s|
  {
    if s == [] {
    } else if s[0] == '{' && CloseOf(s[1..]).Some? {
      StripGroupsGroupFree(s[CloseOf(s[1..]).value + 2..]);
    } else {
      StripGroupsGroupFree(s[1..]);
      var rest := StripGroups(s[1..]);
      var r := [s[0]] + rest;
      assert StripGroups(s) == r;
      if s[0] == '{' {
        StripGroupsKeepsOpenEnd(s[1..]);
        forall i | 0 <= i < |r| && r[i] == '{'
          ensures CloseOf(r[i + 1..]).None?
        {
          if i == 0 {
            assert r[1..] == rest;
          } else {
            assert r[i] == rest[i - 1];
            assert r[i + 1..] == rest[i..];
          }
        }
      } else {
        ConsGroupFree(s[0], rest);
      }
    }
  }

  /** A group-free path is left unchanged. */
  lemma {:induction false} StripGroupsOfGroupFree(s: string)
    requires GroupFree(s)
    ensures StripGroups(s) == s
    decreases |s|
  {
    if s != [] {
      assert s[0] == '{' ==> CloseOf(s[1..]).None?;
      assert GroupFree(s[1..]) by {
        forall i | 0 <= i < |s[1..]| && s[1..][i] == '{'
          ensures CloseOf(s[1..][i + 1..]).None?
        {
          assert s[1..][i + 1..] == s[i + 2..];
        }
      }
      StripGroupsOfGroupFree(s[1..]);
    }
  }

  /** Removing groups twice removes nothing more. */
  lemma StripGroupsIdempotent(s: string)
    ensures StripGroups(StripGroups(s)) == StripGroups(s)
  {
    StripGroupsGroupFree(s);
    StripGroupsOfGroupFree(StripGroups(s));
  }

  /** `pat` occurs in `s` starting at index `i`. */
  predicate OccursAt(s: string, pat: string, i: nat)
  {
    i + |pat| <= |s| && s[i..i + |pat|] == pat
  }

  /** The first index at or after `from` where `pat` occurs in `s`. */
  function IndexFrom(s: string, pat: string, from: nat): (r: Option<nat>)
    requires from <= |s|
    ensures r.Some? ==> from <= r.value && OccursAt(s, pat, r.value)
    ensures r.Some? ==> forall k :: from <= k < r.value ==> !OccursAt(s, pat, k)
    ensures r.None? ==> forall k :: from <= k <= |s| ==> !OccursAt(s, pat, k)
    decreases |s| - from
  {
    if OccursAt(s, pat, from) then Some(from)
    else if from == |s| then None
    else IndexFrom(s, pat, from + 1)
  }

  /** The first index where `pat` occurs in `s` (an empty pattern occurs at 0). */
  function IndexOf(s: string, pat: string): (r: Option<nat>)
    ensures r.Some? ==> OccursAt(s, pat, r.value) && forall k :: 0 <= k < r.value ==> !OccursAt(s, pat, k)
    ensures r.None? ==> forall k :: 0 <= k <= |s| ==> !OccursAt(s, pat, k)
  {
    IndexFrom(s, pat, 0)
  }

  /** Replace the first occurrence of `pat` in `s` by `rep`; without an occurrence `s` is unchanged. */
  function ReplaceFirst(s: string, pat: string, rep: string): (r: string)
    ensures IndexOf(s, pat).None? ==> r == s
    ensures IndexOf(s, pat).Some? ==>
              var i := IndexOf(s, pat).value;
              r == s[..i] + rep + s[i + |pat|..] && forall k :: 0 <= k < i ==> !OccursAt(s, pat, k)
  {
    match IndexOf(s, pat)
    case None => s
    case Some(i) => s[..i] + rep + s[i + |pat|..]
  }

  /** When the string starts with the pattern, that leading occurrence is the one replaced. */
  lemma ReplaceFirstPrefix(pat: string, rest: string, rep: string)
    ensures ReplaceFirst(pat + rest, pat, rep) == rep + rest
  {
  }
}
