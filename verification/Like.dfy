/** SQL's LIKE, and what searching with a text between two percent signs finds. */
module Like {

  /** '%' stands for any text, '_' for any one character, a backslash takes the next one as it is. */
  predicate Matches(p: string, s: string)
    decreases |p| + |s|
  {
    if p == "" then s == ""
    else if p[0] == '%' then Matches(p[1..], s) || (s != "" && Matches(p, s[1..]))
    else if s == "" then false
    else if p[0] == '_' then Matches(p[1..], s[1..])
    else if p[0] == '\\' then |p| > 1 && s[0] == p[1] && Matches(p[2..], s[1..])
    else s[0] == p[0] && Matches(p[1..], s[1..])
  }

  /** The pattern of the name, department and position filters. */
  function Around(text: string): string {
    "%" + text + "%"
  }

  predicate Contains(s: string, text: string) {
    exists i | 0 <= i <= |s| :: text <= s[i..]
  }

  predicate Plain(text: string) {
    forall c | c in text :: c != '%' && c != '_' && c != '\\'
  }

  lemma {:induction false} PercentSkips(p: string, s: string)
    ensures Matches("%" + p, s) <==> exists i | 0 <= i <= |s| :: Matches(p, s[i..])
    decreases |s|
  {
    assert ("%" + p)[1..] == p;
    assert s[0..] == s;
    if s != "" {
      PercentSkips(p, s[1..]);
      forall i | 0 <= i <= |s|
        ensures i > 0 ==> s[i..] == s[1..][i - 1..]
      {
      }
      if Matches("%" + p, s[1..]) {
        var j :| 0 <= j <= |s| - 1 && Matches(p, s[1..][j..]);
        assert s[1..][j..] == s[j + 1..];
      }
    }
  }

  lemma {:induction false} PercentMatchesAll(s: string)
    ensures Matches("%", s)
  {
    if s != "" {
      PercentMatchesAll(s[1..]);
    }
  }

  lemma {:induction false} PlainPrefix(text: string, s: string)
    requires Plain(text)
    ensures Matches(text + "%", s) <==> text <= s
  {
    if text == "" {
      assert text + "%" == "%";
      PercentMatchesAll(s);
    } else {
      assert text[0] in text;
      assert (text + "%")[1..] == text[1..] + "%";
      assert forall c | c in text[1..] :: c in text;
      if s != "" {
        PlainPrefix(text[1..], s[1..]);
        assert text <= s <==> text[0] == s[0] && text[1..] <= s[1..] by {
          assert text == [text[0]] + text[1..] && s == [s[0]] + s[1..];
        }
      }
    }
  }

  lemma PlainFindsSubstrings(text: string, s: string)
    requires Plain(text)
    ensures Matches(Around(text), s) <==> Contains(s, text)
  {
    assert Around(text) == "%" + (text + "%");
    PercentSkips(text + "%", s);
    forall i | 0 <= i <= |s|
      ensures Matches(text + "%", s[i..]) <==> text <= s[i..]
    {
      PlainPrefix(text, s[i..]);
    }
  }

  /** A text the pattern of `text` matches: no characters for a percent sign, some character for
      an underscore, the escaped one for a backslash. A backslash at the end escapes the percent
      sign that the pattern adds. */
  function Instance(text: string): string {
    if text == "" then ""
    else if text[0] == '%' then Instance(text[1..])
    else if text[0] == '_' then "x" + Instance(text[1..])
    else if text[0] == '\\' then
      if |text| == 1 then "%" else [text[1]] + Instance(text[2..])
    else [text[0]] + Instance(text[1..])
  }

  lemma {:induction false} InstanceMatches(text: string)
    ensures Matches(text + "%", Instance(text))
  {
    if text == "" {
      assert text + "%" == "%";
      PercentMatchesAll("");
    } else if text[0] == '\\' {
      if |text| == 1 {
        assert (text + "%")[2..] == "" && (text + "%")[1] == '%';
      } else {
        assert (text + "%")[2..] == text[2..] + "%";
        InstanceMatches(text[2..]);
      }
    } else {
      assert (text + "%")[1..] == text[1..] + "%";
      InstanceMatches(text[1..]);
    }
  }

  lemma {:induction false} InstanceDiffers(text: string)
    ensures |Instance(text)| <= |text|
    ensures Instance(text) == text ==> Plain(text)
    ensures Instance(text) == "" ==> forall c | c in text :: c == '%'
  {
    if text != "" {
      assert text == [text[0]] + text[1..];
      if text[0] == '\\' {
        if |text| > 1 {
          InstanceDiffers(text[2..]);
        }
      } else {
        InstanceDiffers(text[1..]);
      }
    }
  }

  lemma {:induction false} PercentsMatch(p: string, s: string)
    requires p != "" && forall c | c in p :: c == '%'
    ensures Matches(p, s)
  {
    assert p[0] in p;
    if |p| == 1 {
      assert p == "%";
      PercentMatchesAll(s);
    } else {
      assert forall c | c in p[1..] :: c in p;
      PercentsMatch(p[1..], s);
    }
  }

  /** A search text that is not plain finds some non-empty text it does not occur in. */
  lemma SpecialFindsMore(text: string) returns (s: string)
    requires !Plain(text)
    ensures s != "" && Matches(Around(text), s) && !Contains(s, text)
  {
    InstanceDiffers(text);
    s := Instance(text);
    if s == "" {
      s := "x";
      assert forall c | c in Around(text) :: c == '%';
      PercentsMatch(Around(text), s);
      assert text[0] in text;
    } else {
      assert Around(text) == "%" + (text + "%");
      PercentSkips(text + "%", s);
      InstanceMatches(text);
      assert s[0..] == s;
    }
  }

  /** The filters on texts mean "occurs in" exactly when the text sought has no character that
      LIKE takes specially. */
  lemma FindsSubstringsIffPlain(text: string)
    ensures Plain(text) <==> forall s | s != "" :: Matches(Around(text), s) <==> Contains(s, text)
  {
    if Plain(text) {
      forall s | s != ""
        ensures Matches(Around(text), s) <==> Contains(s, text)
      {
        PlainFindsSubstrings(text, s);
      }
    } else {
      var s := SpecialFindsMore(text);
    }
  }
}
