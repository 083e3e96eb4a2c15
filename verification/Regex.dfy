/** grep's pattern matcher against what a pattern denotes. C strings are
    sequences of characters without their final NUL. */
module Regex {

  // What a pattern means --------------------------------------------------------------

  datatype Item = One(c: char) | Many(c: char)

  /** A pattern without its '^': items, and whether a final '$' anchors it. */
  datatype Pattern = Pattern(items: seq<Item>, atEnd: bool)

  /** '.' stands for any character, every other character for itself. */
  predicate Fits(c: char, x: char) {
    c == '.' || c == x
  }

  /** A character before '*' is starred, whatever it is; '$' is special only as
      the last character. */
  function Parse(re: string): (p: Pattern) {
    if re == [] then Pattern([], false)
    else if |re| > 1 && re[1] == '*' then
      var p := Parse(re[2..]); Pattern([Many(re[0])] + p.items, p.atEnd)
    else if re == "$" then Pattern([], true)
    else
      var p := Parse(re[1..]); Pattern([One(re[0])] + p.items, p.atEnd)
  }

  ghost predicate AllFit(c: char, s: string) {
    forall i :: 0 <= i < |s| ==> Fits(c, s[i])
  }

  /** The strings a list of items denotes. */
  ghost predicate InLang(items: seq<Item>, s: string)
    decreases |items|
  {
    if items == [] then s == []
    else match items[0]
      case One(c) => s != [] && Fits(c, s[0]) && InLang(items[1..], s[1..])
      case Many(c) => exists i :: 0 <= i <= |s| && AllFit(c, s[..i]) && InLang(items[1..], s[i..])
  }

  /** Some prefix of the text, all of it under '$', is in the pattern's language. */
  ghost predicate MatchesHere(re: string, text: string) {
    var p := Parse(re);
    exists k :: 0 <= k <= |text| && (p.atEnd ==> k == |text|) && InLang(p.items, text[..k])
  }

  ghost predicate Matches(re: string, text: string) {
    if re != [] && re[0] == '^' then MatchesHere(re[1..], text)
    else exists i :: 0 <= i <= |text| && MatchesHere(re, text[i..])
  }

  // One step of the meaning ------------------------------------------------------------

  lemma HereEmpty(text: string)
    ensures MatchesHere("", text)
  {
    assert InLang([], text[..0]);
  }

  lemma HereEnd(text: string)
    ensures MatchesHere("$", text) <==> text == []
  {
    assert Parse("$") == Pattern([], true);
    if MatchesHere("$", text) {
      var k :| 0 <= k <= |text| && k == |text| && InLang([], text[..k]);
    }
    if text == [] {
      assert InLang([], text[..0]);
    }
  }

  lemma HereOne(re: string, text: string)
    requires re != [] && re != "$" && !(|re| > 1 && re[1] == '*')
    ensures MatchesHere(re, text) <==> text != [] && Fits(re[0], text[0]) && MatchesHere(re[1..], text[1..])
  {
    var p, q := Parse(re), Parse(re[1..]);
    assert p.items[1..] == q.items;
    if MatchesHere(re, text) {
      var k :| 0 <= k <= |text| && (p.atEnd ==> k == |text|) && InLang(p.items, text[..k]);
      assert text[..k][1..] == text[1..][..k - 1];
    }
    if text != [] && Fits(re[0], text[0]) && MatchesHere(re[1..], text[1..]) {
      var k :| 0 <= k <= |text[1..]| && (q.atEnd ==> k == |text[1..]|) && InLang(q.items, text[1..][..k]);
      assert text[..k + 1][1..] == text[1..][..k];
      assert InLang(p.items, text[..k + 1]);
    }
  }

  lemma HereMany(re: string, text: string)
    requires |re| > 1 && re[1] == '*'
    ensures MatchesHere(re, text) <==>
            exists i :: 0 <= i <= |text| && AllFit(re[0], text[..i]) && MatchesHere(re[2..], text[i..])
  {
    var p, q := Parse(re), Parse(re[2..]);
    assert p.items[1..] == q.items;
    if MatchesHere(re, text) {
      var k :| 0 <= k <= |text| && (p.atEnd ==> k == |text|) && InLang(p.items, text[..k]);
      var s := text[..k];
      var i :| 0 <= i <= |s| && AllFit(re[0], s[..i]) && InLang(q.items, s[i..]);
      assert s[..i] == text[..i];
      assert s[i..] == text[i..][..k - i];
    }
    if i :| 0 <= i <= |text| && AllFit(re[0], text[..i]) && MatchesHere(re[2..], text[i..]) {
      var t := text[i..];
      var k :| 0 <= k <= |t| && (q.atEnd ==> k == |t|) && InLang(q.items, t[..k]);
      var s := text[..i + k];
      assert s[..i] == text[..i] && s[i..] == t[..k];
      assert InLang(p.items, s);
    }
  }

  // grep.c -------------------------------------------------------------------------------

  method MatchHere(re: string, text: string) returns (r: bool)
    ensures r <==> MatchesHere(re, text)
    decreases |re|, 0
  {
    if re == [] {
      HereEmpty(text);
      return true;
    }
    if |re| > 1 && re[1] == '*' {
      HereMany(re, text);
      r := MatchStar(re[0], re[2..], text);
      return;
    }
    if re == "$" {
      HereEnd(text);
      return text == [];
    }
    HereOne(re, text);
    if text != [] && (re[0] == '.' || re[0] == text[0]) {
      r := MatchHere(re[1..], text[1..]);
      return;
    }
    return false;
  }

  /** Zero or more of `c`, then `re`. */
  method MatchStar(c: char, re: string, text: string) returns (r: bool)
    ensures r <==> exists i :: 0 <= i <= |text| && AllFit(c, text[..i]) && MatchesHere(re, text[i..])
    decreases |re|, 1
  {
    var j := 0;
    while true
      invariant 0 <= j <= |text| && AllFit(c, text[..j])
      invariant forall i :: 0 <= i < j ==> !MatchesHere(re, text[i..])
      decreases |text| - j
    {
      r := MatchHere(re, text[j..]);
      if r {
        return;
      }
      if !(j < |text| && (text[j] == c || c == '.')) {
        forall i | j < i <= |text| ensures !AllFit(c, text[..i]) {
          assert !Fits(c, text[..i][j]);
        }
        return false;
      }
      assert text[..j + 1] == text[..j] + [text[j]];
      j := j + 1;
    }
  }

  /** match: 1 exactly when the text holds a match, at its start under '^'. */
  method Match(re: string, text: string) returns (r: bool)
    ensures r <==> Matches(re, text)
  {
    if re != [] && re[0] == '^' {
      r := MatchHere(re[1..], text);
      return;
    }
    var j := 0;
    while true
      invariant 0 <= j <= |text|
      invariant forall i :: 0 <= i < j ==> !MatchesHere(re, text[i..])
      decreases |text| - j
    {
      r := MatchHere(re, text[j..]);
      if r {
        return;
      }
      if j == |text| {
        return false;
      }
      j := j + 1;
    }
  }
}
