/** What a keyword hit is, in the characters of the text. */
module KeywordText {
  import opened Text
  import opened MaskScanner
  import opened MaskDocument
  import opened KeywordScan

  predicate LetterOrDigit(c: char) {
    'a' <= c <= 'z' || 'A' <= c <= 'Z' || '0' <= c <= '9'
  }

  /** A character that may stand in front of a keyword. */
  predicate MayPrecede(c: char) {
    !LetterOrDigit(c) && c !in "_/\\-.:"
  }

  /** What may follow: a full stop only at the end of a sentence, not of a file's stem. */
  predicate MayFollow(behind: string) {
    behind == []
    || if behind[0] == '.' then |behind| == 1 || !LetterOrDigit(behind[1])
       else !LetterOrDigit(behind[0]) && behind[0] !in "_/\\-.("
  }

  lemma BeforeMeans(c: char)
    ensures IsBoundaryBefore(c as int) <==> MayPrecede(c)
  {
  }

  lemma AfterMeans(c: char)
    ensures IsBoundaryAfter(c as int) <==> !LetterOrDigit(c) && c !in "_/\\-.("
    ensures IsAlnum(c as int) <==> LetterOrDigit(c)
  {
  }

  /** The keyword between what stands before and behind it is a hit exactly if both may stand there. */
  lemma {:induction false} HitBetween(before: string, needle: string, behind: string)
    ensures Hit(Codes(before + needle + behind), Codes(needle), |before|)
            <==> (before == [] || MayPrecede(before[|before| - 1])) && MayFollow(behind)
  {
    var s, start := before + needle + behind, |before|;
    MatchesBetween(before, needle, behind);
    if before != [] {
      BeforeMeans(before[start - 1]);
      assert s[start - 1] == before[start - 1];
    }
    if behind != [] {
      AfterMeans(behind[0]);
      assert s[start + |needle|] == behind[0];
      if |behind| > 1 {
        AfterMeans(behind[1]);
        assert s[start + |needle| + 1] == behind[1];
      }
    }
    hide IsBoundaryBefore, IsBoundaryAfter, IsAlnum, LetterOrDigit, MayPrecede, Matches, Codes;
  }

  lemma MatchesBetween(before: string, needle: string, behind: string)
    ensures Matches(Codes(before + needle + behind), Codes(needle), |before|)
  {
    var s := before + needle + behind;
    hide Codes;
    forall j | 0 <= j < |needle| ensures Codes(s)[|before| + j] == Codes(needle)[j] {
      assert s[|before| + j] == needle[j];
    }
  }

  /** A hit is an occurrence of the keyword with such neighbours. */
  lemma {:induction false} HitMeans(s: string, needle: string, k: nat)
    ensures Hit(Codes(s), Codes(needle), k)
            <==> OccursAt(s, needle, k) && (k == 0 || MayPrecede(s[k - 1])) && MayFollow(s[k + |needle|..])
  {
    hide *;
    MatchesIs(s, needle, k);
    if OccursAt(s, needle, k) {
      Cut(s, needle, k);
      HitBetween(s[..k], needle, s[k + |needle|..]);
    } else {
      HitIsMatch(s, needle, k);
    }
  }

  lemma HitIsMatch(s: string, needle: string, k: nat)
    ensures Hit(Codes(s), Codes(needle), k) ==> Matches(Codes(s), Codes(needle), k)
  {
  }

  lemma Cut(s: string, needle: string, k: nat)
    requires OccursAt(s, needle, k)
    ensures k + |needle| <= |s| && s[..k] + needle + s[k + |needle|..] == s
  {
  }

  lemma MatchesIs(s: string, needle: string, k: nat)
    ensures Matches(Codes(s), Codes(needle), k) <==> OccursAt(s, needle, k)
  {
    hide Codes;
    if Matches(Codes(s), Codes(needle), k) {
      forall j | 0 <= j < |needle| ensures s[k + j] == needle[j] {
        assert Codes(s)[k + j] == Codes(needle)[j];
      }
      assert s[k..k + |needle|] == needle;
    }
    if OccursAt(s, needle, k) {
      forall j | 0 <= j < |needle| ensures Codes(s)[k + j] == Codes(needle)[j] {
        assert s[k..k + |needle|][j] == s[k + j];
      }
    }
  }

  /** A keyword is found exactly if some prose of the text holds it between such neighbours. */
  lemma {:induction false} FoundMeans(text: string, keyword: string)
    ensures StandsInProse(text, keyword)
            <==> exists k :: 0 <= k <= |text| && OccursAt(text, keyword, k) && (k == 0 || MayPrecede(text[k - 1]))
                             && MayFollow(text[k + |keyword|..]) && AllProse(text, k, k + |keyword|)
  {
    forall k: nat ensures InProse(text, keyword, k)
                          <==> OccursAt(text, keyword, k) && (k == 0 || MayPrecede(text[k - 1]))
                               && MayFollow(text[k + |keyword|..]) && AllProse(text, k, k + |keyword|)
    {
      HitMeans(text, keyword, k);
    }
    hide InProse, OccursAt, MayPrecede, MayFollow, AllProse;
  }

  /** Whatever inline code the lines above open and do not close, a keyword on a line of its own is
      found. */
  lemma {:induction false} FoundBelowAnyLine(above: string, keyword: string)
    requires OpensNothing(above) && IsKeyword(keyword) && Clean(keyword)
    ensures StandsInProse(above + "\n" + keyword, keyword)
  {
    hide *;
    var text, k := above + "\n" + keyword, |above| + 1;
    LineByLine(above, keyword);
    CleanIsUnchanged(keyword, 0);
    var masked := Mask(above, 0) + "\n";
    MaskLength(above);
    assert keyword[0..] == keyword && Mask(text, 0) == masked + keyword + "";
    HitBetween(masked, keyword, "");
    AtTheEnd();
    HitIsInProse(text, keyword, k);
    SomewhereInProse(text, keyword, k);
  }

  lemma MaskLength(s: string)
    ensures |Mask(s, 0)| == |s|
  {
  }

  lemma AtTheEnd()
    ensures MayPrecede('\n') && MayFollow("")
  {
  }

  lemma SomewhereInProse(text: string, keyword: string, k: nat)
    requires InProse(text, keyword, k) && k <= |text|
    ensures StandsInProse(text, keyword)
  {
  }
}
