/**
 * strip_html: delete every single-line `<...>` span the way `re.sub(r"<.*?>", "", s)`
 * does, then remove surrounding whitespace the way `str.strip()` does.
 */
module Html {
  import opened Wrappers

  /** The characters for which Python's `str.isspace()` holds; `str.strip()` removes these. */
  predicate IsSpace(c: char)
  {
    ('\t' <= c <= '\r')                 // tab, line feed, vertical tab, form feed, carriage return
    || ('\U{1C}' <= c <= '\U{1F}')      // file, group, record and unit separators
    || c == ' ' || c == '\U{85}' || c == '\U{A0}' || c == '\U{1680}'
    || ('\U{2000}' <= c <= '\U{200A}')
    || c == '\U{2028}' || c == '\U{2029}' || c == '\U{202F}' || c == '\U{205F}' || c == '\U{3000}'
  }

  predicate AllSpace(s: string)
  {
    forall k :: 0 <= k < |s| ==> IsSpace(s[k])
  }

  /** The length of the whitespace run at the front of s. */
  function LeadingSpaces(s: string): (n: nat)
    ensures n <= |s| && AllSpace(s[..n])
    ensures n < |s| ==> !IsSpace(s[n])
  {
    if s != [] && IsSpace(s[0]) then 1 + LeadingSpaces(s[1..]) else 0
  }

  /** The length of the whitespace run at the back of s. */
  function TrailingSpaces(s: string): (n: nat)
    ensures n <= |s| && AllSpace(s[|s| - n..])
    ensures n < |s| ==> !IsSpace(s[|s| - 1 - n])
  {
    if s != [] && IsSpace(s[|s| - 1]) then 1 + TrailingSpaces(s[..|s| - 1]) else 0
  }

  /** `str.strip()` with no argument: s is whitespace, then r, then whitespace. */
  function Strip(s: string): (r: string)
    ensures r == [] || (!IsSpace(r[0]) && !IsSpace(r[|r| - 1]))
    ensures var i := LeadingSpaces(s);
      i + |r| <= |s| && s[i..i + |r|] == r && AllSpace(s[..i]) && AllSpace(s[i + |r|..])
  {
    var i := LeadingSpaces(s);
    if i == |s| then [] else s[i..|s| - TrailingSpaces(s)]
  }

  /** Text with no whitespace at either end is left as it is by `str.strip()`. */
  lemma StripOfTrimmed(s: string)
    requires s == [] || (!IsSpace(s[0]) && !IsSpace(s[|s| - 1]))
    ensures Strip(s) == s
  {
  }

  /** Stripping twice is stripping once. */
  lemma StripIdempotent(s: string)
    ensures Strip(Strip(s)) == Strip(s)
  {
    StripOfTrimmed(Strip(s));
  }

  /**
   * Where a lazy `.*?>` started at the front of t stops: the position of the first '>'
   * that comes before any line break (`.` does not match '\n'), or None.
   */
  function FindClose(t: string): (r: Option<nat>)
    ensures r.Some? ==> r.value < |t| && t[r.value] == '>'
  {
    if t == [] || t[0] == '\n' then None
    else if t[0] == '>' then Some(0)
    else
      match FindClose(t[1..])
      case None => None
      case Some(j) => Some(j + 1)
  }

  /**
   * FindClose finds the lazy match's end: the '>' it returns has no '>' or line break
   * before it, and when it finds none, every '>' of t comes after a line break.
   */
  lemma {:induction false} FindCloseSpec(t: string)
    ensures FindClose(t).Some? ==>
      forall k :: 0 <= k < FindClose(t).value ==> t[k] != '>' && t[k] != '\n'
    ensures FindClose(t).None? ==>
      forall k :: 0 <= k < |t| && t[k] == '>' ==> exists m :: 0 <= m < k && t[m] == '\n'
    decreases |t|
  {
    if t != [] && t[0] != '\n' && t[0] != '>' {
      FindCloseSpec(t[1..]);
      if FindClose(t).None? {
        forall k | 0 <= k < |t| && t[k] == '>'
          ensures exists m :: 0 <= m < k && t[m] == '\n'
        {
          assert t[1..][k - 1] == '>';
          var m :| 0 <= m < k - 1 && t[1..][m] == '\n';
          assert t[m + 1] == '\n';
        }
      }
    }
  }

  /**
   * `re.sub(r"<.*?>", "", s)`: scanning from the left, a '<' that has a '>' later on the
   * same line opens a match that ends at the first such '>', and the match is deleted;
   * every other character is kept and the scan moves on by one.
   */
  function StripTags(s: string): (r: string)
    ensures |r| <= |s|
    decreases |s|
  {
    if s == [] then []
    else if s[0] == '<' && FindClose(s[1..]).Some? then StripTags(AfterClose(s[1..]))
    else [s[0]] + StripTags(s[1..])
  }

  /** What follows the first '>' of t. */
  function AfterClose(t: string): (r: string)
    requires FindClose(t).Some?
    ensures |r| < |t|
  {
    if t[0] == '>' then t[1..] else AfterClose(t[1..])
  }

  /** The scan resumes right after the '>' that FindClose found, with nothing skipped. */
  lemma {:induction false} AfterCloseSpec(t: string)
    requires FindClose(t).Some?
    ensures AfterClose(t) == t[FindClose(t).value + 1..]
    decreases |t|
  {
    if t[0] != '>' {
      AfterCloseSpec(t[1..]);
      assert t[1..][FindClose(t[1..]).value + 1..] == t[FindClose(t).value + 1..];
    }
  }

  /** No '<' in s is followed by a '>' on the same line: the pattern `<.*?>` matches nowhere in s. */
  predicate TagFree(s: string)
  {
    forall i :: 0 <= i < |s| && s[i] == '<' ==> FindClose(s[i + 1..]).None?
  }

  /** strip_html: `re.sub(r"<.*?>", "", raw or "").strip()`. */
  function StripHtml(raw: Option<string>): (r: string)
    ensures r == [] || (!IsSpace(r[0]) && !IsSpace(r[|r| - 1]))
    ensures raw.None? || raw == Some("") ==> r == ""
  {
    match raw
    case None => ""
    case Some(s) => Strip(StripTags(s))
  }

  /** `<.*?>` matches nowhere in what strip_html returns. */
  lemma StripHtmlTagFree(raw: Option<string>)
    ensures TagFree(StripHtml(raw))
  {
    if raw.Some? {
      StripTagsTagFree(raw.value);
      StripKeepsTagFree(StripTags(raw.value));
    }
  }

  /** Trimming whitespace cannot create a match. */
  lemma StripKeepsTagFree(t: string)
    requires TagFree(t)
    ensures TagFree(Strip(t))
  {
    var i, r := LeadingSpaces(t), Strip(t);
    TagFreeSlice(t, i, i + |r|);
    assert t[i..i + |r|] == r;
  }

  /** Text after a '<' with no closing '>' on its line still has none once its tags are removed. */
  lemma {:induction false} UnclosedStaysUnclosed(t: string)
    requires FindClose(t).None?
    ensures FindClose(StripTags(t)).None?
    decreases |t|
  {
    if t != [] && t[0] != '\n' {
      assert t[0] != '>';
      assert FindClose(t[1..]).None?;
      assert StripTags(t) == [t[0]] + StripTags(t[1..]);
      UnclosedStaysUnclosed(t[1..]);
      assert ([t[0]] + StripTags(t[1..]))[1..] == StripTags(t[1..]);
    }
  }

  /** The pattern `<.*?>` matches nowhere in the result of the substitution. */
  lemma {:induction false} StripTagsTagFree(s: string)
    ensures TagFree(StripTags(s))
    decreases |s|
  {
    if s == [] {
    } else if s[0] == '<' && FindClose(s[1..]).Some? {
      StripTagsTagFree(AfterClose(s[1..]));
    } else {
      var rest := StripTags(s[1..]);
      StripTagsTagFree(s[1..]);
      var r := [s[0]] + rest;
      assert StripTags(s) == r;
      forall i | 0 <= i < |r| && r[i] == '<' ensures FindClose(r[i + 1..]).None? {
        if i == 0 {
          UnclosedStaysUnclosed(s[1..]);
          assert r[1..] == rest;
        } else {
          assert r[i + 1..] == rest[i..];
          assert rest[i - 1] == '<';
        }
      }
    }
  }

  /** A closing '>' found in t is still the first one once more text follows t. */
  lemma {:induction false} FindClosePrefix(t: string, u: string)
    requires FindClose(t).Some?
    ensures FindClose(t + u) == FindClose(t)
    decreases |t|
  {
    if t[0] != '>' {
      assert (t + u)[1..] == t[1..] + u;
      FindClosePrefix(t[1..], u);
    }
  }

  /** Any slice of a tag-free string is tag-free. */
  lemma TagFreeSlice(s: string, i: nat, j: nat)
    requires i <= j <= |s| && TagFree(s)
    ensures TagFree(s[i..j])
  {
    var u := s[i..j];
    forall p | 0 <= p < |u| && u[p] == '<' ensures FindClose(u[p + 1..]).None? {
      assert s[i + p] == '<';
      if FindClose(u[p + 1..]).Some? {
        assert s[i + p + 1..] == u[p + 1..] + s[j..];
        FindClosePrefix(u[p + 1..], s[j..]);
        assert false;
      }
    }
  }

  /** The substitution leaves a string in which `<.*?>` matches nowhere unchanged. */
  lemma {:induction false} StripTagsOfTagFree(s: string)
    requires TagFree(s)
    ensures StripTags(s) == s
    decreases |s|
  {
    if s != [] {
      assert s[0] == '<' ==> FindClose(s[1..]).None?;
      TagFreeSlice(s, 1, |s|);
      StripTagsOfTagFree(s[1..]);
      assert s == [s[0]] + s[1..];
    }
  }

  /** Removing tags twice is removing them once. */
  lemma StripTagsIdempotent(s: string)
    ensures StripTags(StripTags(s)) == StripTags(s)
  {
    StripTagsTagFree(s);
    StripTagsOfTagFree(StripTags(s));
  }

  /** The first '>' of a line fragment without one ends the match. */
  lemma {:induction false} FindCloseAfter(tag: string, rest: string)
    requires forall k :: 0 <= k < |tag| ==> tag[k] != '>' && tag[k] != '\n'
    ensures FindClose(tag + ">" + rest) == Some(|tag|)
    ensures AfterClose(tag + ">" + rest) == rest
    decreases |tag|
  {
    if tag != [] {
      assert (tag + ">" + rest)[1..] == tag[1..] + ">" + rest;
      FindCloseAfter(tag[1..], rest);
    }
  }

  /** A '<', a single-line run without '>', and a '>' are deleted together. */
  lemma DeletesSingleLineTag(tag: string, rest: string)
    requires forall k :: 0 <= k < |tag| ==> tag[k] != '>' && tag[k] != '\n'
    ensures StripTags("<" + tag + ">" + rest) == StripTags(rest)
  {
    var s := "<" + tag + ">" + rest;
    assert s[1..] == tag + ">" + rest;
    FindCloseAfter(tag, rest);
  }

  /** A tag split by a line break is not a match: its '<' stays. */
  lemma KeepsMultiLineTag(before: string, after: string)
    requires forall k :: 0 <= k < |before| ==> before[k] != '>'
    ensures StripTags("<" + before + "\n" + after) == "<" + StripTags(before + "\n" + after)
  {
    var t := before + "\n" + after;
    assert ("<" + t)[1..] == t;
    assert t[|before|] == '\n';
    assert forall k :: 0 <= k < |before| ==> t[k] == before[k];
    FindCloseSpec(t);
    assert FindClose(t).None?;
    var s := "<" + t;
    assert "<" + before + "\n" + after == s;
    assert s[0] == '<';
    assert StripTags(s) == [s[0]] + StripTags(s[1..]);
  }

  /** Text without '<' passes through the substitution unchanged. */
  lemma {:induction false} KeepsPlainText(text: string, rest: string)
    requires forall k :: 0 <= k < |text| ==> text[k] != '<'
    ensures StripTags(text + rest) == text + StripTags(rest)
    decreases |text|
  {
    if text != [] {
      var s := text + rest;
      assert s[0] == text[0] && s[1..] == text[1..] + rest;
      assert StripTags(s) == [text[0]] + StripTags(text[1..] + rest);
      KeepsPlainText(text[1..], rest);
      assert [text[0]] + (text[1..] + StripTags(rest)) == ([text[0]] + text[1..]) + StripTags(rest);
      assert text == [text[0]] + text[1..];
    } else {
      assert text + rest == rest;
    }
  }

  /** Text with no '<' in it is only trimmed. */
  lemma PlainTextIsOnlyStripped(s: string)
    requires forall k :: 0 <= k < |s| ==> s[k] != '<'
    ensures StripHtml(Some(s)) == Strip(s)
  {
    StripTagsOfTagFree(s);
  }
}
