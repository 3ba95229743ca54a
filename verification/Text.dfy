/** Whitespace handling of the backend: `" ".join(value.split())`. */
module Text {
  import opened Support

  /** The characters that `str.split` treats as separators. */
  predicate IsSpace(c: char)
  {
    '\U{9}' <= c <= '\U{D}' || '\U{1C}' <= c <= '\U{20}' || c == '\U{85}' || c == '\U{A0}' ||
    c == '\U{1680}' || '\U{2000}' <= c <= '\U{200A}' || c == '\U{2028}' || c == '\U{2029}' ||
    c == '\U{202F}' || c == '\U{205F}' || c == '\U{3000}'
  }

  predicate IsWord(w: string)
  {
    w != [] && forall i :: 0 <= i < |w| ==> !IsSpace(w[i])
  }

  /** Length of the longest prefix without a separator. */
  function WordEnd(s: string): (k: nat)
    ensures k <= |s|
    ensures forall i :: 0 <= i < k ==> !IsSpace(s[i])
    ensures k < |s| ==> IsSpace(s[k])
  {
    if s == [] || IsSpace(s[0]) then 0 else 1 + WordEnd(s[1..])
  }

  /** `str.split()` without arguments. */
  function Words(s: string): (ws: seq<string>)
    ensures forall w :: w in ws ==> IsWord(w)
    decreases |s|
  {
    if s == [] then []
    else if IsSpace(s[0]) then Words(s[1..])
    else [s[..WordEnd(s)]] + Words(s[WordEnd(s)..])
  }

  /** `" ".join(parts)`. */
  function Join(parts: seq<string>): string
  {
    if parts == [] then ""
    else if |parts| == 1 then parts[0]
    else parts[0] + " " + Join(parts[1..])
  }

  /** `clean_text`. */
  function Clean(s: string): string
  {
    Join(Words(s))
  }

  lemma WordEndOf(w: string, rest: string)
    requires IsWord(w)
    requires rest == [] || IsSpace(rest[0])
    ensures WordEnd(w + rest) == |w|
  {
    assert forall i :: 0 <= i < |w| ==> (w + rest)[i] == w[i];
    if rest != [] {
      assert (w + rest)[|w|] == rest[0];
    }
  }

  lemma WordsCons(w: string, rest: string)
    requires IsWord(w)
    requires rest == [] || IsSpace(rest[0])
    ensures Words(w + rest) == [w] + Words(rest)
  {
    WordEndOf(w, rest);
    assert (w + rest)[0] == w[0];
    assert (w + rest)[..|w|] == w && (w + rest)[|w|..] == rest;
  }

  lemma WordsSkip(c: char, rest: string)
    requires IsSpace(c)
    ensures Words([c] + rest) == Words(rest)
  {
    assert ([c] + rest)[1..] == rest;
  }

  /** Splitting distributes over a separator, whatever surrounds it. */
  lemma {:induction false} WordsSplit(a: string, c: char, b: string)
    requires IsSpace(c)
    ensures Words(a + [c] + b) == Words(a) + Words(b)
    decreases |a|
  {
    assert Words("") == [];
    hide Words;
    if a == [] {
      assert a + [c] + b == [c] + b;
      WordsSkip(c, b);
    } else if IsSpace(a[0]) {
      var tail := a[1..];
      WordsSplit(tail, c, b);
      Regroup(a, 1, c, b);
      assert a[..1] == [a[0]];
      WordsSkip(a[0], tail);
      WordsSkip(a[0], tail + [c] + b);
    } else {
      var k := WordEnd(a);
      var w, tail := a[..k], a[k..];
      WordsSplit(tail, c, b);
      Regroup(a, k, c, b);
      WordsCons(w, tail);
      WordsCons(w, tail + [c] + b);
    }
  }

  lemma Regroup(a: string, k: nat, c: char, b: string)
    requires k <= |a|
    ensures a == a[..k] + a[k..] && a + [c] + b == a[..k] + (a[k..] + [c] + b)
    ensures (a[k..] + [c] + b)[0] == if k < |a| then a[k] else c
  {
  }

  /** The words of each part, one part after the other. */
  function WordsOfAll(parts: seq<string>): seq<string>
  {
    if parts == [] then [] else Words(parts[0]) + WordsOfAll(parts[1..])
  }

  lemma {:induction false} WordsOfJoin(parts: seq<string>)
    ensures Words(Join(parts)) == WordsOfAll(parts)
  {
    if |parts| == 1 {
      assert WordsOfAll(parts[1..]) == [];
    } else if parts != [] {
      WordsSplit(parts[0], ' ', Join(parts[1..]));
      assert parts[0] + " " + Join(parts[1..]) == parts[0] + [' '] + Join(parts[1..]);
      WordsOfJoin(parts[1..]);
    }
  }

  lemma {:induction false} WordsOfWords(ws: seq<string>)
    requires forall w :: w in ws ==> IsWord(w)
    ensures WordsOfAll(ws) == ws
  {
    if ws != [] {
      WordsCons(ws[0], []);
      assert ws[0] + [] == ws[0];
      WordsOfWords(ws[1..]);
    }
  }

  /** Cleaning keeps exactly the words, so it is idempotent. */
  lemma WordsOfClean(s: string)
    ensures Words(Clean(s)) == Words(s)
    ensures Clean(Clean(s)) == Clean(s)
  {
    WordsOfJoin(Words(s));
    WordsOfWords(Words(s));
  }

  /** The words of an optional text, none if there is no text. */
  function WordsOf(text: Option<string>): seq<string>
  {
    match text
    case None => []
    case Some(s) => Words(s)
  }

  /** Only single spaces, and those between words. */
  predicate SingleSpaced(s: string)
  {
    forall i :: 0 <= i < |s| && IsSpace(s[i]) ==> s[i] == ' ' && 0 < i < |s| - 1 && !IsSpace(s[i + 1])
  }

  lemma {:induction false} JoinSpaced(ws: seq<string>)
    requires forall w :: w in ws ==> IsWord(w)
    ensures SingleSpaced(Join(ws))
    ensures ws != [] ==> Join(ws) != "" && !IsSpace(Join(ws)[0])
  {
    hide IsSpace;
    if |ws| > 1 {
      JoinSpaced(ws[1..]);
      SpacedConcat(ws[0], Join(ws[1..]));
    } else if |ws| == 1 {
      assert IsWord(ws[0]);
    }
  }

  lemma SpacedConcat(w: string, rest: string)
    requires IsWord(w) && SingleSpaced(rest) && rest != "" && !IsSpace(rest[0])
    ensures SingleSpaced(w + " " + rest)
  {
    hide IsSpace;
    var all := w + " " + rest;
    assert forall k :: 0 <= k < |w| ==> all[k] == w[k];
    forall i | 0 <= i < |all| && IsSpace(all[i]) ensures all[i] == ' ' && 0 < i < |all| - 1 && !IsSpace(all[i + 1]) {
      if i == |w| {
        assert all[i + 1] == rest[0];
      } else if i > |w| {
        assert all[i] == rest[i - |w| - 1];
        assert all[i + 1] == rest[i - |w|];
      }
    }
  }

  /** A cleaned text has the words of the text and single spaces between them. */
  lemma CleanSpaced(s: string)
    ensures SingleSpaced(Clean(s)) && Words(Clean(s)) == Words(s)
    ensures Clean(s) == "" <==> Words(s) == []
  {
    JoinSpaced(Words(s));
    WordsOfClean(s);
    hide Words;
    assert Words("") == [] by { assert Words("") == []; }
  }

  lemma CleanSame(s: string, t: string)
    ensures Clean(s) == Clean(t) <==> Words(s) == Words(t)
  {
    WordsOfClean(s);
    WordsOfClean(t);
    hide Words;
  }

  lemma {:induction false} WordsOfAllConcat(a: seq<string>, b: seq<string>)
    ensures WordsOfAll(a + b) == WordsOfAll(a) + WordsOfAll(b)
  {
    if a == [] {
      assert a + b == b;
    } else {
      assert (a + b)[1..] == a[1..] + b;
      WordsOfAllConcat(a[1..], b);
    }
  }
}
