/** The pure helpers of the utility module: order identifiers, discount
    arithmetic, the e-mail and phone patterns, duration and text formatting,
    and file-name tests. */
module Helpers {
  import opened Wrappers
  import opened Text
  import opened Numbers

  // ---------------------------------------------------------------------
  // Order identifiers

  /** `generateOrderId()` with its nondeterminism passed in: `timestamp` is
      `Date.now()` and `suffix` the characters cut from
      `Math.random().toString(36)`. */
  function GenerateOrderId(timestamp: nat, suffix: string): (id: string)
    ensures |id| >= 5 && id[..3] == "FB-"
    ensures forall i :: 0 <= i < |id| ==> !IsAsciiLower(id[i])
    ensures var d := NatToDecimal(timestamp);
            && |id| == 4 + |d| + |suffix|
            && id[3..3 + |d|] == d
            && id[3 + |d|] == '-'
            && id[4 + |d|..] == Upper(suffix)
  {
    var d := NatToDecimal(timestamp);
    var raw := "FB-" + d + "-" + suffix;
    UpperHasNoLower(raw);
    OrderIdParts(d, suffix);
    Upper(raw)
  }

  /** Upper-casing the raw identifier touches only the random suffix: the
      prefix, the digits and the dash have no lower-case letters. */
  lemma {:induction false} OrderIdParts(d: string, suffix: string)
    requires AllDigits(d)
    ensures var id := Upper("FB-" + d + "-" + suffix);
      && id == "FB-" + d + "-" + Upper(suffix)
      && id[..3] == "FB-" && id[3..3 + |d|] == d && id[3 + |d|] == '-' && id[4 + |d|..] == Upper(suffix)
  {
    var head := "FB-" + d + "-";
    assert Upper(head) == head by {
      forall i | 0 <= i < |head|
        ensures !IsAsciiLower(head[i])
      {
        if 3 <= i < 3 + |d| {
          assert head[i] == d[i - 3];
        }
      }
      UpperKeeps(head);
    }
    UpperConcat(head, suffix);
    var id := head + Upper(suffix);
    assert id[..3] == "FB-";
    assert id[3..3 + |d|] == d;
    assert id[4 + |d|..] == Upper(suffix);
  }

  /** The timestamp an order identifier was made from: the digits after the
      `FB-` prefix. */
  function OrderIdTimestamp(id: string): Option<nat> {
    if |id| < 3 || id[..3] != "FB-" then None
    else
      var k := DigitRun(id[3..]);
      DigitRunDigits(id[3..]);
      if k == 0 then None else Some(DecimalValue(id[3..][..k]))
  }

  /** An order identifier gives back the timestamp it was made from. */
  lemma {:induction false} OrderIdTimestampRoundTrip(timestamp: nat, suffix: string)
    ensures OrderIdTimestamp(GenerateOrderId(timestamp, suffix)) == Some(timestamp)
  {
    var d := NatToDecimal(timestamp);
    assert GenerateOrderId(timestamp, suffix) == "FB-" + d + "-" + Upper(suffix) by {
      OrderIdParts(d, suffix);
    }
    OrderIdTimestampOfText(d, Upper(suffix));
    DecimalRoundTrip(timestamp);
  }

  /** The digits between `FB-` and the next dash are read as the
      timestamp, whatever follows the dash. */
  lemma {:induction false} OrderIdTimestampOfText(d: string, u: string)
    requires AllDigits(d) && |d| > 0
    ensures OrderIdTimestamp("FB-" + d + "-" + u) == Some(DecimalValue(d))
  {
    var id := "FB-" + d + "-" + u;
    assert id[..3] == "FB-";
    assert id[3..] == d + ("-" + u);
    DigitRunOfPrefix(d, "-" + u);
  }

  // ---------------------------------------------------------------------
  // Discounts

  /** `calculateDiscountPrice(price, discount)`: the price less `discount`
      percent of it. With a percentage between 0 and 100 the result lies
      between nothing and the full price. */
  function CalculateDiscountPrice(price: real, discount: real): (r: real)
    ensures discount == 0.0 ==> r == price
    ensures discount == 100.0 ==> r == 0.0
    ensures 0.0 <= price && 0.0 <= discount <= 100.0 ==> 0.0 <= r <= price
  {
    var cut := price * discount / 100.0;
    assert 0.0 <= price && 0.0 <= discount <= 100.0 ==> 0.0 <= cut <= price by {
      if 0.0 <= price && 0.0 <= discount <= 100.0 {
        ProductNonNegative(price, discount);
        ProductNonNegative(price, 100.0 - discount);
        assert price * (100.0 - discount) == price * 100.0 - price * discount;
      }
    }
    price - cut
  }

  /** The product of two non-negative numbers is not negative. */
  lemma ProductNonNegative(a: real, b: real)
    requires 0.0 <= a && 0.0 <= b
    ensures 0.0 <= a * b
  {
  }

  /** A larger discount never gives a higher price. */
  lemma DiscountIsAntitone(price: real, d1: real, d2: real)
    requires 0.0 <= price && d1 <= d2
    ensures CalculateDiscountPrice(price, d2) <= CalculateDiscountPrice(price, d1)
  {
    var delta := d2 - d1;
    assert price * delta >= 0.0;
    assert price * d2 == price * d1 + price * delta;
    assert price * d2 / 100.0 == price * d1 / 100.0 + price * delta / 100.0;
  }

  // ---------------------------------------------------------------------
  // E-mail and phone patterns

  /** The characters of `s` from `a` up to `b` form a run the class
      `[^\s@]` accepts: no white space and no `@`. */
  predicate Plain(s: string, a: int, b: int)
    requires 0 <= a <= b <= |s|
  {
    forall j :: a <= j < b ==> !IsSpace(s[j]) && s[j] != '@'
  }

  /** The language of `/^[^\s@]+@[^\s@]+\.[^\s@]+$/`: three non-empty plain
      runs separated by `@` and `.`. */
  predicate EmailPattern(s: string) {
    exists i, k :: 0 < i && i + 1 < k < |s| - 1 && s[i] == '@' && s[k] == '.'
      && Plain(s, 0, i) && Plain(s, i + 1, k) && Plain(s, k + 1, |s|)
  }

  /** The part of `s` from `a` on is a domain: no white space or `@`, and a
      dot with text on both sides. */
  predicate Domain(s: string, a: int)
    requires 0 <= a <= |s|
  {
    Plain(s, a, |s|) && exists k :: a < k < |s| - 1 && s[k] == '.'
  }

  /** A well-formed address: a non-empty plain local part, one `@`, and a
      domain. */
  predicate Mailbox(s: string) {
    exists i :: 0 < i < |s| && s[i] == '@' && Plain(s, 0, i) && Domain(s, i + 1)
  }

  /** Every word the regular expression accepts is a well-formed address. */
  lemma {:induction false} EmailPatternMailbox(s: string)
    requires EmailPattern(s)
    ensures Mailbox(s)
  {
    var i, k :| 0 < i && i + 1 < k < |s| - 1 && s[i] == '@' && s[k] == '.'
      && Plain(s, 0, i) && Plain(s, i + 1, k) && Plain(s, k + 1, |s|);
    assert Plain(s, i + 1, |s|) by {
      assert !IsSpace('.');
    }
    assert Domain(s, i + 1);
  }

  /** Every well-formed address is a word the regular expression accepts. */
  lemma {:induction false} MailboxEmailPattern(s: string)
    requires Mailbox(s)
    ensures EmailPattern(s)
  {
    var i :| 0 < i < |s| && s[i] == '@' && Plain(s, 0, i) && Domain(s, i + 1);
    var k :| i + 1 < k < |s| - 1 && s[k] == '.';
    assert Plain(s, i + 1, k) && Plain(s, k + 1, |s|);
  }

  /** The regular expression accepts exactly the well-formed addresses. */
  lemma {:induction false} EmailPatternIsMailbox(s: string)
    ensures EmailPattern(s) <==> Mailbox(s)
  {
    if EmailPattern(s) {
      EmailPatternMailbox(s);
    }
    if Mailbox(s) {
      MailboxEmailPattern(s);
    }
  }

  /** What follows the country or trunk prefix in `/^(\+62|62|0)8[1-9][0-9]{6,9}$/`:
      `8`, a non-zero digit, then six to nine digits. */
  predicate PhoneTail(r: string) {
    8 <= |r| <= 11 && AllDigits(r) && r[0] == '8' && r[1] != '0'
  }

  /** The language of `/^(\+62|62|0)8[1-9][0-9]{6,9}$/`. */
  predicate PhonePattern(s: string) {
    || (|s| >= 3 && s[..3] == "+62" && PhoneTail(s[3..]))
    || (|s| >= 2 && s[..2] == "62" && PhoneTail(s[2..]))
    || (|s| >= 1 && s[0] == '0' && PhoneTail(s[1..]))
  }

  /** The prefixes a mobile number may start with. */
  const PhonePrefixes: seq<string> := ["+62", "62", "0"]

  /** Every word the pattern describes is accepted. */
  lemma {:induction false} PhoneFromParts(prefix: string, second: char, rest: string)
    requires prefix in PhonePrefixes
    requires '1' <= second <= '9'
    requires AllDigits(rest) && 6 <= |rest| <= 9
    ensures PhonePattern(prefix + ['8', second] + rest)
  {
    var s := prefix + ['8', second] + rest;
    assert s[|prefix|..] == ['8', second] + rest;
    assert s[..|prefix|] == prefix;
  }

  /** An accepted number has 9 to 12 characters after a `0`, 10 to 13 after
      `62`, and 11 to 14 after `+62`; nothing but its leading `+` is a
      non-digit. */
  lemma {:induction false} PhoneLengths(s: string)
    requires PhonePattern(s)
    ensures s[0] == '0' ==> 9 <= |s| <= 12
    ensures s[0] == '6' ==> 10 <= |s| <= 13
    ensures s[0] == '+' ==> 11 <= |s| <= 14
    ensures s[0] in "06+"
    ensures forall i :: 1 <= i < |s| ==> IsDigit(s[i])
  {
    if |s| >= 3 && s[..3] == "+62" && PhoneTail(s[3..]) {
      assert s[0] == '+';
      assert forall i :: 3 <= i < |s| ==> s[i] == s[3..][i - 3];
    } else if |s| >= 2 && s[..2] == "62" && PhoneTail(s[2..]) {
      assert s[0] == '6';
      assert forall i :: 2 <= i < |s| ==> s[i] == s[2..][i - 2];
    } else {
      assert forall i :: 1 <= i < |s| ==> s[i] == s[1..][i - 1];
    }
  }

  // ---------------------------------------------------------------------
  // Durations

  /** JavaScript's `%`: the remainder takes the sign of the dividend, and
      the dividend minus it is a multiple of the divisor. */
  function JsRem(a: int, b: int): (r: int)
    requires b > 0
    ensures a >= 0 ==> 0 <= r < b && r == a % b
    ensures a < 0 ==> -b < r <= 0
    ensures exists q :: a == q * b + r
  {
    if a >= 0 then
      assert a == (a / b) * b + a % b;
      a % b
    else
      var q, m := (-a) / b, (-a) % b;
      assert a == (-q) * b + -m;
      -m
  }

  /** `formatDuration(minutes)`: `"{h}h {m}m"` when there is at least one
      whole hour, otherwise `"{m}m"`, with `h = Math.floor(minutes / 60)`
      and `m = minutes % 60`. */
  function FormatDuration(minutes: int): (r: string)
    ensures minutes >= 60 <==> 'h' in r
    ensures |r| > 0 && r[|r| - 1] == 'm'
  {
    var hours := minutes / 60;
    var mins := JsRem(minutes, 60);
    if hours > 0 then
      var r := NatToDecimal(hours) + ("h " + (IntToDecimal(mins) + "m"));
      assert r[|NatToDecimal(hours)|] == 'h';
      r
    else
      var r := IntToDecimal(mins) + "m";
      assert 'h' !in IntToDecimal(mins) by {
        if mins < 0 {
          assert IntToDecimal(mins) == "-" + NatToDecimal(-mins);
        }
      }
      r
  }

  /** Reads a duration in the format `formatDuration` writes back into
      minutes. */
  function ParseDuration(r: string): Option<int> {
    var k := DigitRun(r);
    DigitRunDigits(r);
    if k == 0 then None else DurationRest(DecimalValue(r[..k]), r[k..])
  }

  /** The text after the leading number `a`: either `m`, or `h ` and the
      minutes. */
  function DurationRest(a: nat, rest: string): Option<int> {
    if rest == "m" then Some(a)
    else if |rest| > 2 && rest[..2] == "h " then MinutesPart(a, rest[2..])
    else None
  }

  /** The minutes after `a` hours. */
  function MinutesPart(a: nat, t: string): Option<int> {
    var j := DigitRun(t);
    DigitRunDigits(t);
    if j > 0 && t[j..] == "m" then Some(a * 60 + DecimalValue(t[..j])) else None
  }

  /** A leading number is read up to the first non-digit. */
  lemma {:induction false} ParseDurationLead(d: string, tail: string)
    requires AllDigits(d) && |d| > 0
    requires tail == [] || !IsDigit(tail[0])
    ensures ParseDuration(d + tail) == DurationRest(DecimalValue(d), tail)
  {
    DigitRunOfPrefix(d, tail);
    assert (d + tail)[|d|..] == tail;
  }

  /** Digits followed by `m`, after some hours, read back as those
      minutes. */
  lemma {:induction false} MinutesPartOf(a: nat, md: string)
    requires AllDigits(md) && |md| > 0
    ensures MinutesPart(a, md + "m") == Some(a * 60 + DecimalValue(md))
  {
    DigitRunOfPrefix(md, "m");
    assert (md + "m")[|md|..] == "m";
  }

  /** `"{m}m"` reads back as `m` minutes. */
  lemma {:induction false} ParseMinutesOnly(m: nat)
    ensures ParseDuration(NatToDecimal(m) + "m") == Some(m)
  {
    ParseDurationLead(NatToDecimal(m), "m");
    DecimalRoundTrip(m);
  }

  /** After the hours, `h ` introduces the minutes. */
  lemma {:induction false} HoursThenMinutes(a: nat, t: string)
    requires |t| > 0
    ensures DurationRest(a, "h " + t) == MinutesPart(a, t)
  {
    var rest := "h " + t;
    assert rest[..2] == "h " && rest[2..] == t;
  }

  /** Digits, `h `, digits and `m` read back as that many hours and
      minutes. */
  lemma {:induction false} ParseHoursAndMinutesText(hd: string, md: string)
    requires AllDigits(hd) && |hd| > 0 && AllDigits(md) && |md| > 0
    ensures ParseDuration(hd + ("h " + (md + "m"))) == Some(DecimalValue(hd) * 60 + DecimalValue(md))
  {
    var tail := "h " + (md + "m");
    var a := DecimalValue(hd);
    calc {
      ParseDuration(hd + tail);
      { ParseDurationLead(hd, tail); }
      DurationRest(a, tail);
      { HoursThenMinutes(a, md + "m"); }
      MinutesPart(a, md + "m");
      { MinutesPartOf(a, md); }
      Some(a * 60 + DecimalValue(md));
    }
  }

  /** `"{h}h {m}m"` reads back as `h * 60 + m` minutes. */
  lemma {:induction false} ParseHoursAndMinutes(h: nat, m: nat)
    ensures ParseDuration(NatToDecimal(h) + ("h " + (NatToDecimal(m) + "m"))) == Some(h * 60 + m)
  {
    var hd, md := NatToDecimal(h), NatToDecimal(m);
    calc {
      ParseDuration(hd + ("h " + (md + "m")));
      { ParseHoursAndMinutesText(hd, md); }
      Some(DecimalValue(hd) * 60 + DecimalValue(md));
      { DecimalRoundTrip(h); DecimalRoundTrip(m); }
      Some(h * 60 + m);
    }
  }

  /** The two spellings `formatDuration` writes for a non-negative
      duration. */
  lemma {:induction false} FormatDurationShape(minutes: int)
    requires minutes >= 0
    ensures minutes >= 60 ==>
      FormatDuration(minutes) == NatToDecimal(minutes / 60) + ("h " + (NatToDecimal(minutes % 60) + "m"))
    ensures minutes < 60 ==> FormatDuration(minutes) == NatToDecimal(minutes) + "m"
  {
    assert JsRem(minutes, 60) == minutes % 60;
    assert IntToDecimal(minutes % 60) == NatToDecimal(minutes % 60);
  }

  /** A non-negative duration is recovered from its formatted text. */
  lemma {:induction false} FormatDurationRoundTrip(minutes: int)
    requires minutes >= 0
    ensures ParseDuration(FormatDuration(minutes)) == Some(minutes)
  {
    FormatDurationShape(minutes);
    if minutes >= 60 {
      var h, m := minutes / 60, minutes % 60;
      assert h * 60 + m == minutes;
      ParseHoursAndMinutes(h, m);
    } else {
      ParseMinutesOnly(minutes);
    }
  }

  // ---------------------------------------------------------------------
  // Text and file names

  /** `truncateText(text, maxLength)`: the text itself when it fits,
      otherwise its first `maxLength` characters followed by `...`. */
  function TruncateText(text: string, maxLength: int): (r: string)
    ensures |text| <= maxLength ==> r == text
    ensures |text| > maxLength ==>
      var keep := if maxLength < 0 then 0 else maxLength;
      |r| == keep + 3 && r[..keep] == text[..keep] && r[keep..] == "..."
    ensures maxLength >= 0 ==> |r| <= maxLength + 3
  {
    if |text| > maxLength then
      var keep := if maxLength < 0 then 0 else maxLength;
      text[..keep] + "..."
    else text
  }

  /** `getFileExtension(filename)`: the lower-cased text after the last dot,
      or the whole lower-cased name when there is no dot. */
  function GetFileExtension(fold: char -> char, filename: string): (r: string)
    ensures |r| <= |filename|
    ensures r == Lower(fold, filename[|filename| - |r|..])
    ensures '.' !in filename[|filename| - |r|..]
    ensures |r| < |filename| ==> filename[|filename| - |r| - 1] == '.'
    ensures '.' !in filename ==> r == Lower(fold, filename)
  {
    Lower(fold, LastSegment(filename, '.'))
  }

  /** `k` is where the text after the last dot of `s` starts: no dot
      follows it, and it is the start of `s` or comes right after a dot. */
  predicate AfterLastDot(s: string, k: int) {
    0 <= k <= |s| && '.' !in s[k..] && (k == 0 || s[k - 1] == '.')
  }

  /** Only one position of a name starts the text after its last dot. */
  lemma AfterLastDotUnique(s: string, j: int, k: int)
    requires AfterLastDot(s, j) && AfterLastDot(s, k)
    ensures j == k
  {
  }

  /** The extensions `isImageFile` recognises. */
  const ImageExtensions: seq<string> := ["jpg", "jpeg", "png", "gif", "webp"]

  /** `isImageFile(filename)`: the folded text after the last dot (all of
      the name when it has no dot) is one of the image extensions. */
  predicate IsImageFile(fold: char -> char, filename: string): (b: bool)
    ensures b <==> exists k :: AfterLastDot(filename, k) && Lower(fold, filename[k..]) in ImageExtensions
  {
    var r := GetFileExtension(fold, filename);
    var j := |filename| - |r|;
    assert AfterLastDot(filename, j);
    forall k | AfterLastDot(filename, k) ensures k == j {
      AfterLastDotUnique(filename, j, k);
    }
    r in ImageExtensions
  }

  /** Folding commutes with taking the last segment when the fold keeps dots
      and makes no new ones. */
  lemma {:induction false} LowerLastSegment(fold: char -> char, s: string)
    requires forall c :: fold(c) == '.' <==> c == '.'
    ensures Lower(fold, LastSegment(s, '.')) == LastSegment(Lower(fold, s), '.')
  {
    if s != [] {
      var p, c := s[..|s| - 1], s[|s| - 1];
      var l := Lower(fold, s);
      assert l[..|l| - 1] == Lower(fold, p) && l[|l| - 1] == fold(c) by { LowerOfPrefix(fold, s); }
      LowerLastSegment(fold, p);
      if c != '.' {
        assert LastSegment(l, '.') == LastSegment(Lower(fold, p), '.') + [fold(c)];
        assert LastSegment(s, '.') == LastSegment(p, '.') + [c];
        LowerAppend(fold, LastSegment(p, '.'), c);
      }
    }
  }

  /** File names that differ only in letter case are classified alike. */
  lemma {:induction false} IsImageFileIgnoresCase(fold: char -> char, f: string, g: string)
    requires forall c :: fold(c) == '.' <==> c == '.'
    requires Lower(fold, f) == Lower(fold, g)
    ensures IsImageFile(fold, f) <==> IsImageFile(fold, g)
  {
    LowerLastSegment(fold, f);
    LowerLastSegment(fold, g);
  }
}
