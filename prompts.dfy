/** The two text heuristics of the server: `get_style_suggestions`, which
    picks style keywords for a content type and mood and builds usage
    examples from them, and `PromptOptimizer.optimize_prompt`, which appends
    quality terms and at most one style phrase to a prompt. */
module Prompts {
  import opened Text

  // ---------------------------------------------------------------------
  // get_style_suggestions

  /** `STYLE_SUGGESTIONS`. */
  const StyleTable: map<string, seq<string>> := map[
    "business" := ["professional photography", "clean minimalist", "corporate style", "modern business"],
    "social" := ["vibrant colors", "engaging", "social media style", "eye-catching"],
    "artistic" := ["digital art", "watercolor painting", "oil painting", "concept art"],
    "nature" := ["natural lighting", "organic", "landscape photography", "environmental"],
    "tech" := ["futuristic", "sci-fi", "cyberpunk", "tech aesthetic", "digital"],
    "casual" := ["friendly", "warm tones", "approachable", "everyday style"]]

  /** The first two of `base_prompts` are the only ones used. */
  const BasePrompts: seq<string> := ["产品展示", "团队合影", "办公环境", "品牌logo"]

  const Tips: seq<string> := [
    "选择与内容匹配的风格能获得更好的效果",
    "可以组合多个风格关键词",
    "英文提示词通常效果更好",
    "简洁描述往往比复杂描述更有效"]

  /** `STYLE_SUGGESTIONS.get(content_type, STYLE_SUGGESTIONS["casual"])`. */
  function BaseSuggestions(contentType: string): seq<string>
  {
    if contentType in StyleTable then StyleTable[contentType] else StyleTable["casual"]
  }

  /** An unknown content type gets the `casual` list; every list has at
      least four entries. */
  lemma BaseSuggestionsFallback(contentType: string)
    ensures contentType !in StyleTable ==> BaseSuggestions(contentType) == StyleTable["casual"]
    ensures |BaseSuggestions(contentType)| >= 4
  {
  }

  /** `any(k in s for k in keys)`. */
  predicate MatchesAny(s: string, keys: seq<string>)
  {
    exists i :: 0 <= i < |keys| && Contains(s, keys[i])
  }

  /** `[s for s in suggestions if <s matches a key>]`. */
  function KeepMatching(suggestions: seq<string>, keys: seq<string>): (r: seq<string>)
    ensures |r| <= |suggestions|
    ensures forall x :: x in r <==> x in suggestions && MatchesAny(x, keys)
  {
    if |suggestions| == 0 then []
    else (if MatchesAny(suggestions[0], keys) then [suggestions[0]] else [])
         + KeepMatching(suggestions[1..], keys)
  }

  /** Filtering a concatenation filters each part and keeps them in order,
      so the kept styles appear in the order of the original list. */
  lemma {:induction false} KeepMatchingAppend(a: seq<string>, b: seq<string>, keys: seq<string>)
    ensures KeepMatching(a + b, keys) == KeepMatching(a, keys) + KeepMatching(b, keys)
  {
    if |a| > 0 {
      KeepMatchingAppend(a[1..], b, keys);
      assert (a + b)[1..] == a[1..] + b;
    } else {
      assert a + b == b;
    }
  }

  /** A list whose every entry matches is kept whole. */
  lemma {:induction false} KeepMatchingAll(suggestions: seq<string>, keys: seq<string>)
    requires forall i :: 0 <= i < |suggestions| ==> MatchesAny(suggestions[i], keys)
    ensures KeepMatching(suggestions, keys) == suggestions
  {
    if |suggestions| > 0 {
      KeepMatchingAll(suggestions[1..], keys);
    }
  }

  /** The keywords each recognised mood filters on. */
  function MoodKeys(mood: Option<string>): (r: Option<seq<string>>)
    ensures r.Some? <==> mood == Some("professional") || mood == Some("friendly") || mood == Some("creative")
    ensures r.Some? ==> |r.value| == 3
  {
    if mood == Some("professional") then Some(["professional", "clean", "modern"])
    else if mood == Some("friendly") then Some(["warm", "friendly", "casual"])
    else if mood == Some("creative") then Some(["art", "creative", "concept"])
    else None
  }

  /** The suggestions after the mood filter. */
  function MoodFiltered(suggestions: seq<string>, mood: Option<string>): (r: seq<string>)
    ensures MoodKeys(mood).None? ==> r == suggestions
    ensures MoodKeys(mood).Some? ==> forall x :: x in r <==> x in suggestions && MatchesAny(x, MoodKeys(mood).value)
    ensures |r| <= |suggestions|
  {
    match MoodKeys(mood)
    case None => suggestions
    case Some(keys) => KeepMatching(suggestions, keys)
  }

  /** A mood other than the three recognised ones, or none, leaves the list
      as it is. */
  lemma OtherMoodKeeps(suggestions: seq<string>, mood: Option<string>)
    requires mood != Some("professional") && mood != Some("friendly") && mood != Some("creative")
    ensures MoodFiltered(suggestions, mood) == suggestions
  {
  }

  /** One entry of `usage_examples`. */
  datatype UsageExample = UsageExample(style: string, prompt: string, useCase: string)

  /** The dictionary `get_style_suggestions` serialises. */
  datatype StyleReport = StyleReport(
    contentType: string,
    mood: Option<string>,
    recommendedStyles: seq<string>,
    usageExamples: seq<UsageExample>,
    tips: seq<string>)

  function Min(a: int, b: int): int
  {
    if a <= b then a else b
  }

  /** The example made from the `k`-th pair of (style, base prompt), styles
      outer and base prompts inner. */
  function ExampleAt(styles: seq<string>, contentType: string, k: nat): UsageExample
    requires k / 2 < |styles|
  {
    UsageExample(styles[k / 2], BasePrompts[k % 2] + "，" + styles[k / 2], contentType)
  }

  /** The nested loop of `get_style_suggestions`: two examples, one per
      base prompt, for each of the first three styles. */
  method UsageExamples(styles: seq<string>, contentType: string) returns (examples: seq<UsageExample>)
    ensures |examples| == 2 * Min(3, |styles|)
    ensures forall k :: 0 <= k < |examples| ==> examples[k] == ExampleAt(styles, contentType, k)
  {
    examples := [];
    var top := styles[..Min(3, |styles|)];
    for i := 0 to |top|
      invariant |examples| == 2 * i
      invariant forall k :: 0 <= k < |examples| ==> examples[k] == ExampleAt(styles, contentType, k)
    {
      var style := top[i];
      for j := 0 to 2
        invariant |examples| == 2 * i + j
        invariant forall k :: 0 <= k < |examples| ==> examples[k] == ExampleAt(styles, contentType, k)
      {
        examples := examples + [UsageExample(style, BasePrompts[j] + "，" + style, contentType)];
      }
    }
  }

  /** `get_style_suggestions(content_type, mood)`: the styles for the
      content type, filtered by mood in their original order, and two
      examples for each of the first three of them. */
  method GetStyleSuggestions(contentType: string, mood: Option<string>) returns (report: StyleReport)
    ensures report.contentType == contentType && report.mood == mood && report.tips == Tips
    ensures report.recommendedStyles == MoodFiltered(BaseSuggestions(contentType), mood)
    ensures |report.usageExamples| == 2 * Min(3, |report.recommendedStyles|)
    ensures forall k :: 0 <= k < |report.usageExamples| ==>
              report.usageExamples[k] == ExampleAt(report.recommendedStyles, contentType, k)
  {
    var suggestions := BaseSuggestions(contentType);
    if mood == Some("professional") {
      suggestions := KeepMatching(suggestions, ["professional", "clean", "modern"]);
    } else if mood == Some("friendly") {
      suggestions := KeepMatching(suggestions, ["warm", "friendly", "casual"]);
    } else if mood == Some("creative") {
      suggestions := KeepMatching(suggestions, ["art", "creative", "concept"]);
    }
    var examples := UsageExamples(suggestions, contentType);
    report := StyleReport(contentType, mood, suggestions, examples, Tips);
  }

  lemma BusinessStyles(contentType: string)
    requires contentType == "business"
    ensures BaseSuggestions(contentType)
         == ["professional photography", "clean minimalist", "corporate style", "modern business"]
  {
  }

  lemma ProfessionalPhotographyMatches(t: string, keys: seq<string>)
    requires t == "professional photography" && keys == ["professional", "clean", "modern"]
    ensures MatchesAny(t, keys)
  {
    assert "professional" <= t;
    assert Contains(t, keys[0]);
  }

  lemma CleanMinimalistMatches(t: string, keys: seq<string>)
    requires t == "clean minimalist" && keys == ["professional", "clean", "modern"]
    ensures MatchesAny(t, keys)
  {
    assert "clean" <= t;
    assert Contains(t, keys[1]);
  }

  lemma ModernBusinessMatches(t: string, keys: seq<string>)
    requires t == "modern business" && keys == ["professional", "clean", "modern"]
    ensures MatchesAny(t, keys)
  {
    assert "modern" <= t;
    assert Contains(t, keys[2]);
  }

  /** `corporate style` lacks the `f` of professional, the `n` of clean and
      modern. */
  lemma CorporateStyleMisses(t: string, keys: seq<string>)
    requires t == "corporate style" && keys == ["professional", "clean", "modern"]
    ensures !MatchesAny(t, keys)
  {
    assert forall k :: 0 <= k < |t| ==> t[k] != 'f' && t[k] != 'n';
    ContainsNeedsChar(t, keys[0], 3);
    ContainsNeedsChar(t, keys[1], 4);
    ContainsNeedsChar(t, keys[2], 5);
  }

  /** Filtering a four-entry list whose third entry alone fails drops
      exactly that entry. */
  lemma KeepMatchingDropsThird(xs: seq<string>, keys: seq<string>)
    requires |xs| == 4
    requires MatchesAny(xs[0], keys) && MatchesAny(xs[1], keys)
    requires !MatchesAny(xs[2], keys) && MatchesAny(xs[3], keys)
    ensures KeepMatching(xs, keys) == [xs[0], xs[1], xs[3]]
  {
    assert KeepMatching(xs[3..], keys) == [xs[3]] + KeepMatching(xs[4..], keys);
    assert KeepMatching(xs[2..], keys) == KeepMatching(xs[3..], keys) by {
      assert xs[2..][1..] == xs[3..];
    }
    assert KeepMatching(xs[1..], keys) == [xs[1]] + KeepMatching(xs[2..], keys) by {
      assert xs[1..][1..] == xs[2..];
    }
    assert xs[1..] == xs[1..][0..];
  }

  /** `business` with mood `professional` keeps the three entries naming
      professional, clean or modern, in table order, dropping `corporate
      style`. */
  lemma BusinessProfessional(contentType: string, mood: Option<string>)
    requires contentType == "business" && mood == Some("professional")
    ensures MoodFiltered(BaseSuggestions(contentType), mood)
         == ["professional photography", "clean minimalist", "modern business"]
  {
    var keys := ["professional", "clean", "modern"];
    var xs := BaseSuggestions(contentType);
    BusinessStyles(contentType);
    assert MoodKeys(mood) == Some(keys);
    ProfessionalPhotographyMatches(xs[0], keys);
    CleanMinimalistMatches(xs[1], keys);
    CorporateStyleMisses(xs[2], keys);
    ModernBusinessMatches(xs[3], keys);
    KeepMatchingDropsThird(xs, keys);
  }

  // ---------------------------------------------------------------------
  // PromptOptimizer.optimize_prompt

  /** The quality terms of the four branches, in the order they are written. */
  const EnglishGeneralTerms: seq<string> := ["high quality", "detailed", "professional photography"]
  const EnglishWechatTerms: seq<string> :=
    ["professional photography", "high resolution", "commercial grade", "clean background"]
  const ChineseWechatTerms: seq<string> := ["专业摄影", "高清", "商业级", "纯净背景"]
  const ChineseGeneralTerms: seq<string> := ["高质量", "细节丰富", "专业摄影"]

  /** The quality terms for a stripped prompt: English ones when every
      character is ASCII, Chinese ones otherwise; the `wechat_header` use
      case has its own list and every other use case gets the general one. */
  function QualityTerms(stripped: string, useCase: string): (r: seq<string>)
    ensures |r| >= 3
  {
    if AllAscii(stripped) then
      if useCase == "wechat_header" then EnglishWechatTerms else EnglishGeneralTerms
    else
      if useCase == "wechat_header" then ChineseWechatTerms else ChineseGeneralTerms
  }

  /** What the first `+=` appends: a comma, a space and the terms joined by
      `, `. */
  function QualitySuffix(stripped: string, useCase: string): (r: string)
    ensures |r| > 2 && r[..2] == ", "
  {
    ", " + Join(QualityTerms(stripped, useCase), ", ")
  }

  /** The style the second step picks; the first matching test wins. */
  datatype Style = Tech | Nature | Business | NoStyle

  /** The Chinese and the English keyword of a style. */
  function Keywords(style: Style): (string, string)
    requires style != NoStyle
  {
    match style
    case Tech => ("科技", "tech")
    case Nature => ("自然", "nature")
    case Business => ("商务", "business")
  }

  /** The test for one style: its Chinese keyword occurs in `s`, or its
      English keyword in `s.lower()`. */
  predicate Mentions(s: string, style: Style)
    requires style != NoStyle
  {
    Contains(s, Keywords(style).0) || Contains(LowerAscii(s), Keywords(style).1)
  }

  /** The style the `if`/`elif` chain picks: technology before nature before
      business, and none when the text mentions none of them. */
  function StyleOf(s: string): (r: Style)
    ensures r != NoStyle ==> Mentions(s, r)
    ensures r == NoStyle <==> !Mentions(s, Tech) && !Mentions(s, Nature) && !Mentions(s, Business)
    ensures r == Nature ==> !Mentions(s, Tech)
    ensures r == Business ==> !Mentions(s, Tech) && !Mentions(s, Nature)
  {
    if Mentions(s, Tech) then Tech
    else if Mentions(s, Nature) then Nature
    else if Mentions(s, Business) then Business
    else NoStyle
  }

  /** The phrase of a style, without separator. */
  function StylePhrase(style: Style): string
    requires style != NoStyle
  {
    match style
    case Tech => "futuristic technology style"
    case Nature => "natural environment"
    case Business => "professional business style"
  }

  /** The phrase appended for a style, as the source writes it: the business
      phrase comes without the `, ` the other two start with. */
  function StyleSuffixAsWritten(style: Style): string
  {
    match style
    case Tech => ", " + StylePhrase(Tech)
    case Nature => ", " + StylePhrase(Nature)
    case Business => StylePhrase(Business)
    case NoStyle => ""
  }

  /** The phrase appended for a style with the separator the business
      phrase evidently lacks. */
  function StyleSuffix(style: Style): (r: string)
    ensures r == "" || (|r| > 2 && r[..2] == ", ")
  {
    if style == NoStyle then "" else ", " + StylePhrase(style)
  }

  /** The written suffixes and the corrected ones differ only for the
      business style, whose written suffix lacks the leading `, `. */
  lemma SuffixAsWrittenDiffers(style: Style)
    ensures style != Business ==> StyleSuffixAsWritten(style) == StyleSuffix(style)
    ensures StyleSuffixAsWritten(Business) == StylePhrase(Business)
    ensures StyleSuffix(Business) == ", " + StyleSuffixAsWritten(Business)
  {
  }

  /** `t` mentions no style. */
  predicate KeywordFree(t: string)
  {
    !Mentions(t, Tech) && !Mentions(t, Nature) && !Mentions(t, Business)
  }

  /** A string lacking the second Chinese character of a style and one
      letter of its English keyword, in either case, does not mention it. */
  lemma KeywordFreeBy(t: string, style: Style, c: char)
    requires style != NoStyle && c in Keywords(style).1 && 'a' <= c <= 'z'
    requires forall k :: 0 <= k < |t| ==>
               t[k] != Keywords(style).0[1] && t[k] != c && t[k] != UpperChar(c)
    ensures !Mentions(t, style)
  {
    assert Keywords(style).0[1] !in t && c !in t && UpperChar(c) !in t;
    var (zh, en) := Keywords(style);
    var k :| 0 <= k < |en| && en[k] == c;
    LowerAsciiWithout(t, c);
    ContainsNeedsChar(t, zh, 1);
    ContainsNeedsChar(LowerAscii(t), en, k);
  }

  lemma KeywordFreeByChars(t: string, ct: char, cn: char, cb: char)
    requires ct in Keywords(Tech).1 && cn in Keywords(Nature).1 && cb in Keywords(Business).1
    requires forall k :: 0 <= k < |t| ==>
               && t[k] != '技' && t[k] != '然' && t[k] != '务'
               && t[k] != ct && t[k] != UpperChar(ct) && t[k] != cn && t[k] != UpperChar(cn)
               && t[k] != cb && t[k] != UpperChar(cb)
    ensures KeywordFree(t)
  {
    KeywordFreeBy(t, Tech, ct);
    KeywordFreeBy(t, Nature, cn);
    KeywordFreeBy(t, Business, cb);
  }

  // Each English term lacks one letter of each keyword: the letters are
  // named in the call.

  lemma HighQualityFree(t: string)
    requires t == "high quality"
    ensures KeywordFree(t)
  {
    KeywordFreeByChars(t, 'c', 'n', 'b');
  }

  lemma DetailedFree(t: string)
    requires t == "detailed"
    ensures KeywordFree(t)
  {
    KeywordFreeByChars(t, 'c', 'n', 'b');
  }

  lemma ProfessionalPhotographyFree(t: string)
    requires t == "professional photography"
    ensures KeywordFree(t)
  {
    KeywordFreeByChars(t, 'c', 'u', 'b');
  }

  lemma HighResolutionFree(t: string)
    requires t == "high resolution"
    ensures KeywordFree(t)
  {
    KeywordFreeByChars(t, 'c', 'a', 'b');
  }

  lemma CommercialGradeFree(t: string)
    requires t == "commercial grade"
    ensures KeywordFree(t)
  {
    KeywordFreeByChars(t, 't', 't', 'b');
  }

  lemma CleanBackgroundFree(t: string)
    requires t == "clean background"
    ensures KeywordFree(t)
  {
    KeywordFreeByChars(t, 't', 't', 's');
  }

  /** The Chinese terms contain no Latin letter and neither `技`, `然` nor
      `务`. */
  lemma ChineseTermFree(t: string)
    requires t in ChineseWechatTerms || t in ChineseGeneralTerms
    ensures KeywordFree(t)
  {
    KeywordFreeByChars(t, 't', 'n', 'b');
  }

  lemma EnglishGeneralFree(t: string)
    requires t in EnglishGeneralTerms
    ensures KeywordFree(t)
  {
    if t == EnglishGeneralTerms[0] {
      HighQualityFree(t);
    } else if t == EnglishGeneralTerms[1] {
      DetailedFree(t);
    } else {
      ProfessionalPhotographyFree(t);
    }
  }

  lemma EnglishWechatFree(t: string)
    requires t in EnglishWechatTerms
    ensures KeywordFree(t)
  {
    if t == EnglishWechatTerms[0] {
      ProfessionalPhotographyFree(t);
    } else if t == EnglishWechatTerms[1] {
      HighResolutionFree(t);
    } else if t == EnglishWechatTerms[2] {
      CommercialGradeFree(t);
    } else {
      CleanBackgroundFree(t);
    }
  }

  /** No quality term names a style keyword. */
  lemma QualityTermsFree(stripped: string, useCase: string, i: nat)
    requires i < |QualityTerms(stripped, useCase)|
    ensures KeywordFree(QualityTerms(stripped, useCase)[i])
  {
    var t := QualityTerms(stripped, useCase)[i];
    if AllAscii(stripped) {
      if useCase == "wechat_header" {
        EnglishWechatFree(t);
      } else {
        EnglishGeneralFree(t);
      }
    } else {
      ChineseTermFree(t);
    }
  }

  /** `, ` followed by terms joined with `, ` holds a keyword without comma
      or space only if one of the terms does. */
  lemma {:induction false} SuffixAvoids(terms: seq<string>, pat: string)
    requires |terms| >= 1 && |pat| > 0 && ',' !in pat && ' ' !in pat
    requires forall i :: 0 <= i < |terms| ==> !Contains(terms[i], pat)
    ensures !Contains(", " + Join(terms, ", "), pat)
  {
    ContainsSkip(", ", terms[0], pat);
    if |terms| > 1 {
      SuffixAvoids(terms[1..], pat);
      var rest := ", " + Join(terms[1..], ", ");
      assert ", " + Join(terms, ", ") == (", " + terms[0]) + rest;
      ContainsAcross(", " + terms[0], rest, pat);
    }
  }

  /** `s` holds neither a comma nor a space. */
  predicate Unbroken(s: string)
  {
    forall k :: 0 <= k < |s| ==> s[k] != ',' && s[k] != ' '
  }

  /** Appending `, ` and terms none of which holds `pat` (a pattern without
      comma or space) adds no occurrence of it. */
  lemma SuffixKeepsPattern(s: string, terms: seq<string>, pat: string)
    requires |terms| >= 1 && |pat| > 0 && Unbroken(pat)
    requires forall i :: 0 <= i < |terms| ==> !Contains(terms[i], pat)
    ensures Contains(s + ", " + Join(terms, ", "), pat) <==> Contains(s, pat)
  {
    assert ',' !in pat && ' ' !in pat;
    var q := ", " + Join(terms, ", ");
    SuffixAvoids(terms, pat);
    ContainsAcross(s, q, pat);
    assert s + ", " + Join(terms, ", ") == s + q;
  }

  /** Lower-casing the prompt with its suffix lower-cases each term. */
  lemma LowerSuffix(s: string, terms: seq<string>)
    ensures LowerAscii(s + ", " + Join(terms, ", "))
         == LowerAscii(s) + ", " + Join(seq(|terms|, i requires 0 <= i < |terms| => LowerAscii(terms[i])), ", ")
  {
    LowerAsciiJoin(terms, ", ");
    LowerAsciiAppend(", ", Join(terms, ", "));
    assert LowerAscii(", ") == ", ";
    LowerAsciiAppend(s, ", " + Join(terms, ", "));
    assert s + ", " + Join(terms, ", ") == s + (", " + Join(terms, ", "));
  }

  /** The same for a pair of keywords, the second one looked up in the
      lower-cased text. */
  lemma SuffixKeepsPair(s: string, terms: seq<string>, zh: string, en: string)
    requires |terms| >= 1 && |zh| > 0 && |en| > 0 && Unbroken(zh) && Unbroken(en)
    requires forall i :: 0 <= i < |terms| ==>
               !Contains(terms[i], zh) && !Contains(LowerAscii(terms[i]), en)
    ensures Contains(s + ", " + Join(terms, ", "), zh) <==> Contains(s, zh)
    ensures Contains(LowerAscii(s + ", " + Join(terms, ", ")), en) <==> Contains(LowerAscii(s), en)
  {
    var lowTerms := seq(|terms|, i requires 0 <= i < |terms| => LowerAscii(terms[i]));
    LowerSuffix(s, terms);
    SuffixKeepsPattern(s, terms, zh);
    SuffixKeepsPattern(LowerAscii(s), lowTerms, en);
  }

  /** Every keyword is a non-empty word without comma or space. */
  lemma KeywordsUnbroken(style: Style)
    requires style != NoStyle
    ensures |Keywords(style).0| > 0 && Unbroken(Keywords(style).0)
    ensures |Keywords(style).1| > 0 && Unbroken(Keywords(style).1)
  {
  }

  /** Appending `, ` and terms that do not mention a style keeps the test
      for that style as it was. */
  lemma SuffixKeepsMention(s: string, terms: seq<string>, style: Style)
    requires |terms| >= 1 && style != NoStyle
    requires forall i :: 0 <= i < |terms| ==> !Mentions(terms[i], style)
    ensures Mentions(s + ", " + Join(terms, ", "), style) <==> Mentions(s, style)
  {
    KeywordsUnbroken(style);
    SuffixKeepsPair(s, terms, Keywords(style).0, Keywords(style).1);
  }

  /** Terms free of every keyword, appended after `, `, leave the style as
      it was. */
  lemma SuffixKeepsStyle(s: string, terms: seq<string>)
    requires |terms| >= 1
    requires forall i :: 0 <= i < |terms| ==> KeywordFree(terms[i])
    ensures StyleOf(s + ", " + Join(terms, ", ")) == StyleOf(s)
  {
    SuffixKeepsMention(s, terms, Tech);
    SuffixKeepsMention(s, terms, Nature);
    SuffixKeepsMention(s, terms, Business);
  }

  /** The appended quality terms never decide the style: it is the style
      of the stripped prompt alone. */
  lemma QualityKeepsStyle(stripped: string, useCase: string)
    ensures StyleOf(stripped + QualitySuffix(stripped, useCase)) == StyleOf(stripped)
  {
    var terms := QualityTerms(stripped, useCase);
    forall i | 0 <= i < |terms|
      ensures KeywordFree(terms[i])
    {
      QualityTermsFree(stripped, useCase, i);
    }
    SuffixKeepsStyle(stripped, terms);
    assert stripped + QualitySuffix(stripped, useCase) == stripped + ", " + Join(terms, ", ");
  }

  /** The style step of `optimize_prompt`: the first style the text
      mentions decides the phrase appended to it. */
  method AppendStylePhrase(text: string) returns (r: string)
    ensures r == text + StyleSuffixAsWritten(StyleOf(text))
  {
    r := text;
    if Mentions(r, Tech) {
      r := r + ", " + StylePhrase(Tech);
    } else if Mentions(r, Nature) {
      r := r + ", " + StylePhrase(Nature);
    } else if Mentions(r, Business) {
      r := r + StylePhrase(Business);
    }
  }

  /** `optimize_prompt(prompt, use_case)`: the stripped prompt, then the
      quality terms for its language and use case, then the phrase of the
      style the stripped prompt mentions, if any. */
  method OptimizePrompt(prompt: string, useCase: string) returns (optimized: string)
    ensures var s := Strip(prompt);
      optimized == s + QualitySuffix(s, useCase) + StyleSuffixAsWritten(StyleOf(s))
  {
    optimized := Strip(prompt);
    ghost var stripped := optimized;
    optimized := optimized + QualitySuffix(optimized, useCase);
    QualityKeepsStyle(stripped, useCase);
    optimized := AppendStylePhrase(optimized);
  }

  /** The corrected `optimize_prompt`: the business phrase, like the other
      two, follows a `, `. */
  function OptimizedPrompt(prompt: string, useCase: string): string
  {
    var s := Strip(prompt);
    s + QualitySuffix(s, useCase) + StyleSuffix(StyleOf(s))
  }

  /** The corrected result is the stripped prompt followed by the quality
      terms and the style phrase, all joined by `, `. */
  lemma OptimizedPromptJoined(prompt: string, useCase: string)
    ensures var s := Strip(prompt);
      OptimizedPrompt(prompt, useCase)
      == s + ", " + Join(QualityTerms(s, useCase) + StylePhrases(StyleOf(s)), ", ")
  {
    var s := Strip(prompt);
    SeparatedSuffix(s, QualityTerms(s, useCase), StylePhrases(StyleOf(s)));
  }

  /** The style phrase as a list of zero or one entries. */
  function StylePhrases(style: Style): (r: seq<string>)
    ensures |r| <= 1
    ensures |r| == 1 ==> StyleSuffix(style) == ", " + r[0]
    ensures |r| == 0 <==> StyleSuffix(style) == ""
  {
    if style == NoStyle then [] else [StylePhrase(style)]
  }

  /** Appending `, ` and at most one more phrase after the joined terms is
      joining that phrase as one more term. */
  lemma SeparatedSuffix(s: string, terms: seq<string>, phrases: seq<string>)
    requires |terms| >= 1 && |phrases| <= 1
    ensures s + (", " + Join(terms, ", ")) + (if |phrases| == 0 then "" else ", " + phrases[0])
         == s + ", " + Join(terms + phrases, ", ")
  {
    var j := Join(terms, ", ");
    JoinAppendPhrase(terms, phrases);
    if |phrases| == 0 {
      assert terms + phrases == terms;
    } else {
      var p := phrases[0];
      assert s + (", " + j) + (", " + p) == s + ", " + (j + (", " + p));
    }
  }

  lemma JoinAppendPhrase(terms: seq<string>, phrases: seq<string>)
    requires |terms| >= 1 && |phrases| <= 1
    ensures Join(terms + phrases, ", ")
         == Join(terms, ", ") + (if |phrases| == 0 then "" else ", " + phrases[0])
    decreases |terms|
  {
    if |phrases| == 1 {
      if |terms| == 1 {
        assert (terms + phrases)[1..] == phrases;
      } else {
        assert (terms + phrases)[1..] == terms[1..] + phrases;
        JoinAppendPhrase(terms[1..], phrases);
      }
    } else {
      assert terms + phrases == terms;
    }
  }

  /** For a business prompt the source runs the last quality term into the
      business phrase, where the corrected version separates them. */
  lemma BusinessPhraseUnseparated(prompt: string, useCase: string)
    requires StyleOf(Strip(prompt)) == Business
    ensures var withTerms := Strip(prompt) + QualitySuffix(Strip(prompt), useCase);
      && withTerms + StyleSuffixAsWritten(StyleOf(Strip(prompt))) == withTerms + StylePhrase(Business)
      && OptimizedPrompt(prompt, useCase) == withTerms + (", " + StylePhrase(Business))
  {
    assert StyleSuffix(Business) == ", " + StylePhrase(Business);
  }

  lemma BusinessPlanStripped(prompt: string)
    requires prompt == "business plan"
    ensures Strip(prompt) == prompt
  {
    assert !IsSpace(prompt[0]) && !IsSpace(prompt[|prompt| - 1]);
  }

  /** `business plan` has no `t`, so it mentions neither technology nor
      nature. */
  lemma BusinessPlanLacksT(prompt: string)
    requires prompt == "business plan"
    ensures !Mentions(prompt, Tech) && !Mentions(prompt, Nature)
  {
    KeywordFreeBy(prompt, Tech, 't');
    KeywordFreeBy(prompt, Nature, 't');
  }

  /** `business plan` is such a prompt. */
  lemma BusinessPlanIsBusiness(prompt: string)
    requires prompt == "business plan"
    ensures Strip(prompt) == prompt && StyleOf(prompt) == Business
  {
    BusinessPlanStripped(prompt);
    BusinessPlanLacksT(prompt);
    LowerAsciiKeeps(prompt);
    assert Keywords(Business).1 <= LowerAscii(prompt);
  }
}
