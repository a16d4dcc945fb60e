/**
 * utils/allowedMessages.js: the keyword filter on chat messages. The text is
 * lowercased, split into word tokens, and accepted when some token equals an entry
 * of one of three lists. The word tokenizer is a parameter; lowercasing is modelled
 * on ASCII letters.
 */
module AllowedMessages {
  const Greetings: seq<string> := ["hello", "hi", "hey", "good morning", "good evening"]
  const Thanks: seq<string> := ["thank you", "thanks", "appreciate it"]
  const ArtKeywords: seq<string> := [
    "art", "artist", "showcase", "submit", "post", "evaluation", "judge",
    "category", "rank", "score", "feedback", "like", "comment"
  ]

  /** `entries.some(e => tokens.includes(e))` */
  function SomeIncluded(entries: seq<string>, tokens: seq<string>): (r: bool)
    ensures r <==> exists k :: 0 <= k < |entries| && entries[k] in tokens
  {
    if entries == [] then false
    else if entries[0] in tokens then true
    else
      var rest := SomeIncluded(entries[1..], tokens);
      assert rest <==> exists k :: 1 <= k < |entries| && entries[k] in tokens by {
        forall k | 1 <= k < |entries| ensures entries[k] == entries[1..][k - 1] { }
        if rest {
          var k :| 0 <= k < |entries[1..]| && entries[1..][k] in tokens;
          assert entries[k + 1] in tokens;
        }
      }
      rest
  }

  /** True when the token equals an entry of one of the three lists. */
  predicate Listed(t: string)
  {
    t in Greetings || t in Thanks || t in ArtKeywords
  }

  /**
   * `isAllowedMessage` on an already lowercased and tokenised message: true exactly
   * when some token is a listed entry. No token, no acceptance.
   */
  function IsAllowedMessage(tokens: seq<string>): (r: bool)
    ensures r <==> exists t :: t in tokens && Listed(t)
    ensures tokens == [] ==> !r
  {
    var hasGreeting := SomeIncluded(Greetings, tokens);
    var hasThanks := SomeIncluded(Thanks, tokens);
    var hasArtKeyword := SomeIncluded(ArtKeywords, tokens);
    hasGreeting || hasThanks || hasArtKeyword
  }

  /** The entries that contain no space, the only ones a word token can equal. */
  const SingleWords: seq<string> := [
    "hello", "hi", "hey", "thanks",
    "art", "artist", "showcase", "submit", "post", "evaluation", "judge",
    "category", "rank", "score", "feedback", "like", "comment"
  ]

  /**
   * The word tokenizer never keeps a space inside a token; for such tokens the
   * multi-word entries ('good morning', 'good evening', 'thank you', 'appreciate it')
   * never decide anything: acceptance is exactly a token among the single words.
   */
  lemma MultiWordEntriesNeverMatch(tokens: seq<string>)
    requires forall i :: 0 <= i < |tokens| ==> ' ' !in tokens[i]
    ensures IsAllowedMessage(tokens) <==> exists t :: t in tokens && t in SingleWords
  {
    forall t | ' ' !in t ensures Listed(t) <==> t in SingleWords {
      assert ' ' in "good morning" && ' ' in "good evening";
      assert ' ' in "thank you" && ' ' in "appreciate it";
    }
  }

  /** Matching is on whole tokens: 'artistic' is no keyword, though it starts with 'art'. */
  lemma WholeTokensOnly()
    ensures !IsAllowedMessage(["artistic"])
    ensures IsAllowedMessage(["art"])
  {
    assert !Listed("artistic");
    assert ArtKeywords[0] == "art";
  }

  /** `toLowerCase` on ASCII: A-Z become a-z, every other character stays. */
  function ToLower(s: string): (r: string)
    ensures |r| == |s|
    ensures forall i :: 0 <= i < |s| ==> r[i] == LowerChar(s[i])
  {
    if s == [] then [] else [LowerChar(s[0])] + ToLower(s[1..])
  }

  function LowerChar(c: char): (r: char)
    ensures 'A' <= c <= 'Z' ==> r as int == c as int + 32
    ensures !('A' <= c <= 'Z') ==> r == c
    ensures !('A' <= r <= 'Z')
  {
    if 'A' <= c <= 'Z' then (c as int + 32) as char else c
  }

  /** Lowercasing twice is lowercasing once. */
  lemma {:induction false} ToLowerIdempotent(s: string)
    ensures ToLower(ToLower(s)) == ToLower(s)
  {
    if s != [] {
      ToLowerIdempotent(s[1..]);
      assert ToLower(s)[1..] == ToLower(s[1..]);
    }
  }

  /** The whole filter: lowercase, tokenise with `tokenize`, then match. */
  function IsAllowedText(text: string, tokenize: string -> seq<string>): (r: bool)
    ensures r <==> exists t :: t in tokenize(ToLower(text)) && Listed(t)
  {
    IsAllowedMessage(tokenize(ToLower(text)))
  }

  /**
   * Case does not matter: two texts that agree once lowercased ('Hello', 'HELLO',
   * 'hello') get the same verdict, and lowercasing a text first changes nothing.
   */
  lemma CaseInsensitive(a: string, b: string, tokenize: string -> seq<string>)
    requires ToLower(a) == ToLower(b)
    ensures IsAllowedText(a, tokenize) == IsAllowedText(b, tokenize)
    ensures IsAllowedText(ToLower(a), tokenize) == IsAllowedText(a, tokenize)
  {
    ToLowerIdempotent(a);
  }
}
