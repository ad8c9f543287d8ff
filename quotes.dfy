/** `getDailyQuote`: a quote chosen from the date string, the same all day. */
module Quotes {

  datatype Quote = Quote(text: string, author: string)

  const MotivationalQuotes: seq<Quote> := [
    Quote("The secret of getting ahead is getting started.", "Mark Twain"),
    Quote("Success is the sum of small efforts repeated day in and day out.", "Robert Collier"),
    Quote("You don't have to be great to start, but you have to start to be great.", "Zig Ziglar"),
    Quote("The only way to do great work is to love what you do.", "Steve Jobs"),
    Quote("Believe you can and you're halfway there.", "Theodore Roosevelt"),
    Quote("Your limitation—it's only your imagination.", "Unknown"),
    Quote("Great things never come from comfort zones.", "Unknown"),
    Quote("Dream it. Wish it. Do it.", "Unknown"),
    Quote("Success doesn't just find you. You have to go out and get it.", "Unknown"),
    Quote("The harder you work for something, the greater you'll feel when you achieve it.", "Unknown"),
    Quote("Don't stop when you're tired. Stop when you're done.", "Unknown"),
    Quote("Wake up with determination. Go to bed with satisfaction.", "Unknown"),
    Quote("Do something today that your future self will thank you for.", "Unknown"),
    Quote("Little things make big days.", "Unknown"),
    Quote("It's going to be hard, but hard does not mean impossible.", "Unknown")
  ]

  /** The `reduce` over the characters: the sum of their codes. */
  function CharCodeSum(s: string): (n: nat)
    ensures forall i :: 0 <= i < |s| ==> s[i] as int <= n
  {
    if s == [] then 0 else CharCodeSum(s[..|s| - 1]) + s[|s| - 1] as int
  }

  /** The sum of codes adds up over concatenation, so it does not depend on how the string is cut. */
  lemma {:induction false} CharCodeSumAppend(a: string, b: string)
    ensures CharCodeSum(a + b) == CharCodeSum(a) + CharCodeSum(b)
    decreases |b|
  {
    if b != [] {
      assert (a + b)[..|a + b| - 1] == a + b[..|b| - 1];
      CharCodeSumAppend(a, b[..|b| - 1]);
    } else {
      assert a + b == a;
    }
  }

  /** `seed % motivationalQuotes.length`: always a valid index of the quote list. */
  function DailyQuoteIndex(dateString: string): (i: nat)
    ensures i < |MotivationalQuotes|
    ensures (CharCodeSum(dateString) - i) % |MotivationalQuotes| == 0
  {
    CharCodeSum(dateString) % |MotivationalQuotes|
  }

  /** `getDailyQuote()`, with `new Date().toDateString()` passed in. */
  function DailyQuote(dateString: string): (q: Quote)
    ensures q in MotivationalQuotes
  {
    MotivationalQuotes[DailyQuoteIndex(dateString)]
  }
}
