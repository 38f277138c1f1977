/** What a slug is made of: the words of the title, in lower case, joined by single dashes. */
module SlugWords {
  import opened Prelude
  import opened Slug

  // ----- Characters ----------------------------------------------------------------------------

  /** Combining marks go, A-Z become a-z, everything else stays. */
  lemma PreparedExact(s: string, c: char, k: nat)
    requires k < 26
    ensures Prepared([]) == []
    ensures Prepared(s + [('A' as int + k) as char]) == Prepared(s) + [('a' as int + k) as char]
    ensures 0x300 <= c as int <= 0x36F ==> Prepared(s + [c]) == Prepared(s)
    ensures !(0x300 <= c as int <= 0x36F) && !(65 <= c as int <= 90) ==> Prepared(s + [c]) == Prepared(s) + [c]
  {
    var upper := ('A' as int + k) as char;
    assert (s + [upper])[..|s|] == s && (s + [c])[..|s|] == s;
  }

  lemma WordExact(c: char)
    ensures Word(c) <==> c in "abcdefghijklmnopqrstuvwxyz0123456789"
  {
  }

  predicate AllWord(s: string) {
    forall i :: 0 <= i < |s| ==> Word(s[i])
  }

  // ----- Words ---------------------------------------------------------------------------------

  predicate EndsInWord(s: string) {
    s != [] && Word(s[|s| - 1])
  }

  /** The maximal runs of letters and digits, in order. */
  function Words(s: string): (words: seq<string>)
    ensures forall i :: 0 <= i < |words| ==> words[i] != [] && AllWord(words[i])
    ensures EndsInWord(s) ==> words != []
  {
    if s == [] then [] else
      var front, c := s[..|s| - 1], s[|s| - 1];
      var words := Words(front);
      if !Word(c) then words
      else if EndsInWord(front) then words[..|words| - 1] + [words[|words| - 1] + [c]]
      else words + [[c]]
  }

  /** A text of letters and digits only is one word. */
  lemma {:induction false} WordAlone(s: string)
    requires s != [] && AllWord(s)
    ensures Words(s) == [s]
  {
    var front := s[..|s| - 1];
    assert s == front + [s[|s| - 1]];
    if front != [] {
      assert Word(s[|front| - 1]);
      WordAlone(front);
    }
  }

  /** Any other character separates the words before it from those after it. */
  lemma {:induction false} WordsSplit(a: string, x: char, b: string)
    requires !Word(x)
    ensures Words(a + [x] + b) == Words(a) + Words(b)
  {
    var s := a + [x] + b;
    if b == [] {
      assert s == a + [x] && (a + [x])[..|a|] == a;
    } else {
      var front := b[..|b| - 1];
      WordsSplit(a, x, front);
      assert s[..|s| - 1] == a + [x] + front;
      assert EndsInWord(a + [x] + front) <==> EndsInWord(front);
    }
  }

  function Joined(words: seq<string>): string {
    if words == [] then [] else
      var front, last := words[..|words| - 1], words[|words| - 1];
      if front == [] then last else Joined(front) + "-" + last
  }

  lemma JoinedMore(words: seq<string>, last: string)
    ensures Joined(words + [last]) == if words == [] then last else Joined(words) + "-" + last
  {
    assert (words + [last])[..|words|] == words;
  }

  lemma {:induction false} JoinedEnds(words: seq<string>)
    requires words != [] && forall i :: 0 <= i < |words| ==> words[i] != [] && AllWord(words[i])
    ensures Joined(words) != [] && Word(Joined(words)[0]) && EndsInWord(Joined(words))
  {
    var front, last := words[..|words| - 1], words[|words| - 1];
    assert last != [] && AllWord(last);
    if front != [] {
      JoinedEnds(front);
    }
  }

  function Lead(s: string): string {
    if s != [] && !Word(s[0]) then "-" else ""
  }

  function Trail(s: string): string {
    if s != [] && !EndsInWord(s) && Words(s) != [] then "-" else ""
  }

  /** Dashes: one in front, one between any two words, one behind. */
  lemma {:induction false} DashedWords(s: string)
    ensures Dashed(s) == Lead(s) + Joined(Words(s)) + Trail(s)
  {
    if s != [] {
      var front, c := s[..|s| - 1], s[|s| - 1];
      assert s == front + [c];
      DashedWords(front);
      if Word(c) {
        OneLetterMore(front, c);
      } else {
        OneOtherMore(front, c);
      }
    }
  }

  lemma OneOtherMore(front: string, c: char)
    requires !Word(c) && Dashed(front) == Lead(front) + Joined(Words(front)) + Trail(front)
    ensures var s := front + [c]; Dashed(s) == Lead(s) + Joined(Words(s)) + Trail(s)
  {
    var s := front + [c];
    assert s[..|s| - 1] == front;
  }

  lemma OneLetterMore(front: string, c: char)
    requires Word(c) && Dashed(front) == Lead(front) + Joined(Words(front)) + Trail(front)
    ensures var s := front + [c]; Dashed(s) == Lead(s) + Joined(Words(s)) + Trail(s)
  {
    LetterAtEnd(front, c);
    LetterJoined(front, c);
    Reassociated(Lead(front), Joined(Words(front)), Trail(front), [c]);
  }

  lemma LetterAtEnd(front: string, c: char)
    requires Word(c)
    ensures Dashed(front + [c]) == Dashed(front) + [c] && Lead(front + [c]) == Lead(front) && Trail(front + [c]) == ""
  {
    assert (front + [c])[..|front|] == front;
  }

  lemma Reassociated(a: string, b: string, c: string, d: string)
    ensures a + b + c + d == a + (b + c + d) + ""
  {
  }

  lemma LetterJoined(front: string, c: char)
    requires Word(c)
    ensures Joined(Words(front + [c])) == Joined(Words(front)) + Trail(front) + [c]
  {
    var s, words := front + [c], Words(front);
    assert s[..|s| - 1] == front;
    if EndsInWord(front) {
      var earlier, last := words[..|words| - 1], words[|words| - 1];
      assert words == earlier + [last];
      JoinedMore(earlier, last);
      JoinedMore(earlier, last + [c]);
    } else {
      JoinedMore(words, [c]);
    }
  }

  // ----- Slugs ---------------------------------------------------------------------------------

  lemma UnclippedWords(input: string)
    ensures Unclipped(input) == Joined(Words(Prepared(input)))
  {
    var s := Prepared(input);
    var words := Words(s);
    DashedWords(s);
    if words != [] {
      JoinedEnds(words);
      var inner := Joined(words) + Trail(s);
      assert Dashed(s) == Lead(s) + inner && inner[0] != '-';
      LeadTrimmed(Lead(s), inner);
      TrailTrimmed(Joined(words), Trail(s));
    } else {
      assert Dashed(s) == Lead(s);
      NothingLeft(Lead(s));
    }
  }

  lemma NothingLeft(lead: string)
    requires lead in {"", "-"}
    ensures TrimEnd(TrimStart(lead)) == ""
  {
    if lead == "-" {
      assert lead[1..] == "";
    }
  }

  lemma LeadTrimmed(lead: string, inner: string)
    requires lead in {"", "-"} && inner != [] && inner[0] != '-'
    ensures TrimStart(lead + inner) == inner
  {
    if lead == "-" {
      assert (lead + inner)[1..] == inner;
    } else {
      assert lead + inner == inner;
    }
  }

  lemma TrailTrimmed(inner: string, trail: string)
    requires trail in {"", "-"} && inner != [] && inner[|inner| - 1] != '-'
    ensures TrimEnd(inner + trail) == inner
  {
    if trail == "-" {
      assert (inner + trail)[..|inner|] == inner;
    } else {
      assert inner + trail == inner;
    }
  }

  /**
   The slug of a title is its words joined by dashes, cut at eighty characters or before the dash there;
   a title without words is called postingan.
   */
  lemma SlugJoinsWords(input: string)
    ensures var words := Words(Prepared(input));
            var whole := Joined(words);
            Slugify(input)
            == if words == [] then "postingan"
               else if |whole| <= 80 then whole
               else if whole[79] == '-' then whole[..79]
               else whole[..80]
  {
    var words := Words(Prepared(input));
    var whole := Joined(words);
    UnclippedWords(input);
    UnclippedLetters(input);
    if words != [] {
      JoinedEnds(words);
      if |whole| > 80 && whole[79] == '-' {
        assert whole[78] != '-';
        assert whole[..80][..79] == whole[..79];
        assert TrimEnd(whole[..80]) == TrimEnd(whole[..79]) == whole[..79];
      }
    }
  }

  /** The candidates are the root, then the root with -2 and so on up to -999. */
  lemma CandidatesExact(root: string, k: nat)
    ensures Candidate(root, 0) == root
    ensures k > 0 ==> Candidate(root, k) == root + "-" + DecimalText(k + 1)
    ensures CANDIDATES == 999 && DecimalText(2) == "2" && DecimalText(999) == "999"
  {
    assert DecimalText(9) == "9" && DecimalText(99) == "99";
  }
}
