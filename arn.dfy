/**
 * Deriving the AWS region from an SNS topic ARN.
 *
 * An ARN is a ':'-separated list of six fields
 *   arn:partition:service:region:account:resource
 * and the webhook bridge reads the region from field index 3.
 * The split follows Go's strings.Split with a one-character separator:
 * a string with n separators splits into n + 1 parts, and the empty
 * string splits into one empty part.
 */
module Arn {
  import opened Wrappers

  /** The separator between ARN fields. */
  const Colon: char := ':'

  /** The number of fields a well-formed ARN has. */
  const ArnFields: nat := 6

  /** The field index of the region. */
  const RegionField: nat := 3

  /** The message the service logs before exiting on a malformed ARN. */
  const FatalMessage: string := "Could not inflect AWS region from ARN: ARN does not look valid"

  /** Number of occurrences of `c` in `s`. */
  function Occurrences(s: string, c: char): (n: nat)
  {
    if s == [] then 0 else (if s[0] == c then 1 else 0) + Occurrences(s[1..], c)
  }

  /**
   * Splits `s` at every `sep`, keeping empty parts, as strings.Split does.
   * There is one part more than there are separators, and no part holds one.
   */
  function Split(s: string, sep: char): (parts: seq<string>)
    ensures |parts| == Occurrences(s, sep) + 1
    ensures forall i :: 0 <= i < |parts| ==> sep !in parts[i]
  {
    if s == [] then [[]]
    else
      var rest := Split(s[1..], sep);
      if s[0] == sep then [[]] + rest
      else [[s[0]] + rest[0]] + rest[1..]
  }

  /** Glues `parts` back together with `sep` between neighbours, as strings.Join does. */
  function Join(parts: seq<string>, sep: char): (s: string)
  {
    if parts == [] then []
    else if |parts| == 1 then parts[0]
    else parts[0] + [sep] + Join(parts[1..], sep)
  }

  /** Joining the parts of a split gives back the original string. */
  lemma {:induction false} JoinSplit(s: string, sep: char)
    ensures Join(Split(s, sep), sep) == s
  {
    if s != [] {
      var rest := Split(s[1..], sep);
      JoinSplit(s[1..], sep);
      if s[0] == sep {
        assert Split(s, sep) == [[]] + rest;
        assert ([[]] + rest)[1..] == rest;
      } else {
        var parts := Split(s, sep);
        assert parts == [[s[0]] + rest[0]] + rest[1..];
        if |rest| == 1 {
          assert parts == [[s[0]] + rest[0]];
        } else {
          assert parts[1..] == rest[1..];
          assert Join(rest, sep) == rest[0] + [sep] + Join(rest[1..], sep);
          assert Join(parts, sep) == [s[0]] + rest[0] + [sep] + Join(rest[1..], sep);
        }
      }
      assert s == [s[0]] + s[1..];
    }
  }

  /** A string without a separator splits into itself alone. */
  lemma SplitWithoutSeparator(s: string, sep: char)
    requires sep !in s
    ensures Split(s, sep) == [s]
  {
    var parts := Split(s, sep);
    assert |parts| == 1 by { NoOccurrences(s, sep); }
    JoinSplit(s, sep);
  }

  /** A character that does not appear in `s` occurs zero times in it. */
  lemma {:induction false} NoOccurrences(s: string, c: char)
    requires c !in s
    ensures Occurrences(s, c) == 0
  {
    if s != [] {
      assert c !in s[1..] by {
        forall i | 0 <= i < |s[1..]| ensures s[1..][i] != c { assert s[1..][i] == s[i + 1]; }
      }
      NoOccurrences(s[1..], c);
    }
  }

  /** Splitting around one separator splits each side independently. */
  lemma {:induction false} SplitAround(a: string, sep: char, b: string)
    ensures Split(a + [sep] + b, sep) == Split(a, sep) + Split(b, sep)
  {
    if a == [] {
      assert a + [sep] + b == [sep] + b;
      SplitCons(sep, b, sep);
    } else {
      assert a == [a[0]] + a[1..] && a + [sep] + b == [a[0]] + (a[1..] + [sep] + b);
      SplitAround(a[1..], sep, b);
      SplitAroundStep(a[0], a[1..], sep, b);
    }
  }

  /** One step of SplitAround: putting a character in front keeps the split of each side apart. */
  lemma SplitAroundStep(x: char, t: string, sep: char, b: string)
    requires Split(t + [sep] + b, sep) == Split(t, sep) + Split(b, sep)
    ensures Split([x] + (t + [sep] + b), sep) == Split([x] + t, sep) + Split(b, sep)
  {
    var ra, rb := Split(t, sep), Split(b, sep);
    if x == sep {
      calc {
        Split([x] + (t + [sep] + b), sep);
      == { SplitCons(x, t + [sep] + b, sep); }
        [[]] + (ra + rb);
      ==
        ([[]] + ra) + rb;
      == { SplitCons(x, t, sep); }
        Split([x] + t, sep) + rb;
      }
    } else {
      calc {
        Split([x] + (t + [sep] + b), sep);
      == { SplitCons(x, t + [sep] + b, sep); }
        [[x] + (ra + rb)[0]] + (ra + rb)[1..];
      == { ExtendFirst([x], ra, rb); }
        ([[x] + ra[0]] + ra[1..]) + rb;
      == { SplitCons(x, t, sep); }
        Split([x] + t, sep) + rb;
      }
    }
  }

  /** Prefixing the first part of `xs + ys` only touches `xs` when `xs` is not empty. */
  lemma ExtendFirst<T>(p: seq<T>, xs: seq<seq<T>>, ys: seq<seq<T>>)
    requires |xs| >= 1
    ensures [p + (xs + ys)[0]] + (xs + ys)[1..] == ([p + xs[0]] + xs[1..]) + ys
  {
    assert (xs + ys)[1..] == xs[1..] + ys;
  }

  /** How a split starts: a leading separator closes an empty part, any other character opens the first part. */
  lemma SplitCons(x: char, t: string, sep: char)
    ensures Split([x] + t, sep) ==
      if x == sep then [[]] + Split(t, sep) else [[x] + Split(t, sep)[0]] + Split(t, sep)[1..]
  {
    assert ([x] + t)[0] == x && ([x] + t)[1..] == t;
  }

  /** Splitting a join of separator-free, non-empty list of parts gives the parts back. */
  lemma {:induction false} SplitJoin(parts: seq<string>, sep: char)
    requires |parts| >= 1
    requires forall i :: 0 <= i < |parts| ==> sep !in parts[i]
    ensures Split(Join(parts, sep), sep) == parts
  {
    if |parts| == 1 {
      SplitWithoutSeparator(parts[0], sep);
    } else {
      SplitJoin(parts[1..], sep);
      SplitAround(parts[0], sep, Join(parts[1..], sep));
      SplitWithoutSeparator(parts[0], sep);
      assert parts == [parts[0]] + parts[1..];
    }
  }

  /**
   * The pure part of inflectRegionFromARN: the region field of a six-field ARN,
   * or None where the service exits fatally. An ARN is accepted exactly when it
   * has five colons; the region it yields never contains a colon.
   */
  function InflectRegion(arn: string): (region: Option<string>)
    ensures region.Some? <==> Occurrences(arn, Colon) == ArnFields - 1
    ensures region.Some? ==> Colon !in region.value
  {
    var parts := Split(arn, Colon);
    if |parts| != ArnFields then None else Some(parts[RegionField])
  }

  /**
   * Any text that sits between an ARN's third and fourth colon, and holds no
   * colon of its own, is the region that is inflected.
   */
  lemma RegionBetweenColons(head: string, region: string, tail: string)
    requires Occurrences(head, Colon) == 2 && Occurrences(tail, Colon) == 1
    requires Colon !in region
    ensures InflectRegion(head + [Colon] + region + [Colon] + tail) == Some(region)
  {
    var arn := head + [Colon] + region + [Colon] + tail;
    assert arn == head + [Colon] + (region + [Colon] + tail);
    SplitAround(head, Colon, region + [Colon] + tail);
    SplitAround(region, Colon, tail);
    SplitWithoutSeparator(region, Colon);
    var parts := Split(arn, Colon);
    assert parts == Split(head, Colon) + [region] + Split(tail, Colon);
    assert parts[RegionField] == region;
  }

  /**
   * Conversely, an accepted ARN is its region framed by the text up to the
   * third colon and the text after the fourth.
   */
  lemma RegionLocated(arn: string) returns (head: string, tail: string)
    requires InflectRegion(arn).Some?
    ensures arn == head + [Colon] + InflectRegion(arn).value + [Colon] + tail
    ensures Occurrences(head, Colon) == 2 && Occurrences(tail, Colon) == 1
  {
    var parts := Split(arn, Colon);
    head, tail := Join(parts[..3], Colon), Join(parts[4..], Colon);
    JoinSplit(arn, Colon);
    JoinAround(parts[..3], parts[3..], Colon);
    JoinAround([parts[3]], parts[4..], Colon);
    assert parts[..3] + parts[3..] == parts;
    assert [parts[3]] + parts[4..] == parts[3..];
    SplitJoin(parts[..3], Colon);
    SplitJoin(parts[4..], Colon);
  }

  /** Joining two non-empty lists of parts puts one separator between them. */
  lemma {:induction false} JoinAround(xs: seq<string>, ys: seq<string>, sep: char)
    requires |xs| >= 1 && |ys| >= 1
    ensures Join(xs + ys, sep) == Join(xs, sep) + [sep] + Join(ys, sep)
  {
    if |xs| > 1 {
      JoinAround(xs[1..], ys, sep);
      assert (xs + ys)[1..] == xs[1..] + ys;
    } else {
      assert (xs + ys)[1..] == ys;
    }
  }

  /** Occurrences add up over a concatenation. */
  lemma {:induction false} OccurrencesAppend(a: string, b: string, c: char)
    ensures Occurrences(a + b, c) == Occurrences(a, c) + Occurrences(b, c)
  {
    if a == [] {
      assert a + b == b;
    } else {
      assert (a + b)[0] == a[0] && (a + b)[1..] == a[1..] + b;
      OccurrencesAppend(a[1..], b, c);
    }
  }

  /** The documented example ARN, field by field. */
  lemma ExampleFields(arn: string)
    requires arn == "arn:aws:sns:us-west-2:123456789012:my-topic"
    ensures arn == ("arn" + [Colon] + "aws" + [Colon] + "sns") + [Colon] + "us-west-2" + [Colon]
                   + ("123456789012" + [Colon] + "my-topic")
  {
  }

  /** The documented example: a us-west-2 topic ARN. */
  lemma ExampleArn(arn: string)
    requires arn == "arn:aws:sns:us-west-2:123456789012:my-topic"
    ensures InflectRegion(arn) == Some("us-west-2")
  {
    ExampleFields(arn);
    ExampleHead();
    ExampleTail("123456789012", "my-topic");
    assert Colon !in "us-west-2";
    RegionBetweenColons("arn" + [Colon] + "aws" + [Colon] + "sns", "us-west-2", "123456789012" + [Colon] + "my-topic");
  }

  /** The example's account and resource fields hold one colon between them. */
  lemma ExampleTail(account: string, resource: string)
    requires account == "123456789012" && resource == "my-topic"
    ensures Occurrences(account + [Colon] + resource, Colon) == 1
  {
    OccurrencesAppend(account + [Colon], resource, Colon);
    OccurrencesAppend(account, [Colon], Colon);
    NoOccurrences(account, Colon);
    NoOccurrences(resource, Colon);
  }

  /** The example's first three fields hold two colons between them. */
  lemma ExampleHead()
    ensures Occurrences("arn" + [Colon] + "aws" + [Colon] + "sns", Colon) == 2
  {
    OccurrencesAppend("arn" + [Colon] + "aws" + [Colon], "sns", Colon);
    OccurrencesAppend("arn" + [Colon] + "aws", [Colon], Colon);
    OccurrencesAppend("arn" + [Colon], "aws", Colon);
    OccurrencesAppend("arn", [Colon], Colon);
  }

  /** An ARN without colons, and the empty string, are both rejected. */
  lemma RejectedArns()
    ensures InflectRegion("bad-arn") == None
    ensures InflectRegion("") == None
  {
    SplitWithoutSeparator("bad-arn", Colon);
  }
}
