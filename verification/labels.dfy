/** The humaniser that turns a state key such as `secondsPerMinute` into the
    input label "Seconds Per Minute": a space goes before every ASCII capital
    (`/([A-Z])/g` replaced by `" $1"`), then the first character is
    upper-cased (`/^./`). */
module Labels {

  import opened TimeUnits

  predicate IsUpper(ch: char)
  {
    'A' <= ch <= 'Z'
  }

  function ToUpper(ch: char): (u: char)
    ensures 'a' <= ch <= 'z' ==> IsUpper(u)
    ensures !('a' <= u <= 'z')
  {
    if 'a' <= ch <= 'z' then (ch as int - 32) as char else ch
  }

  /** Inserts a space before every capital letter: the result is never
      shorter, and text without capitals is left as it is. */
  function SpaceBeforeCapitals(s: string): (r: string)
    ensures |r| >= |s|
    ensures NoCapitals(s) ==> r == s
  {
    if s == [] then []
    else
      var rest := SpaceBeforeCapitals(s[1..]);
      assert NoCapitals(s) ==> NoCapitals(s[1..]) by {
        assert forall k :: 0 <= k < |s[1..]| ==> s[1..][k] == s[k + 1];
      }
      assert NoCapitals(s) ==> [s[0]] + s[1..] == s;
      (if IsUpper(s[0]) then [' ', s[0]] else [s[0]]) + rest
  }

  /** Upper-cases the first character, if there is one. */
  function CapitalizeFirst(s: string): (r: string)
    ensures |r| == |s|
    ensures |s| > 0 ==> r[0] == ToUpper(s[0]) && r[1..] == s[1..]
  {
    if s == [] then [] else [ToUpper(s[0])] + s[1..]
  }

  /** The label shown for a state key: nothing is dropped, and a label never
      starts with a lower-case letter. */
  function Humanize(key: string): (r: string)
    ensures |r| >= |key|
    ensures |key| > 0 ==> !('a' <= r[0] <= 'z')
  {
    CapitalizeFirst(SpaceBeforeCapitals(key))
  }

  /** Drops every space: the partner that undoes the insertion. */
  function RemoveSpaces(s: string): (r: string)
    ensures ' ' !in r
  {
    if s == [] then []
    else (if s[0] == ' ' then [] else [s[0]]) + RemoveSpaces(s[1..])
  }

  /** Every capital of the result has a space right before it. */
  lemma {:induction false} CapitalsArePreceded(s: string)
    ensures forall i :: 0 <= i < |SpaceBeforeCapitals(s)| && IsUpper(SpaceBeforeCapitals(s)[i]) ==>
              0 < i && SpaceBeforeCapitals(s)[i - 1] == ' '
  {
    if s != [] {
      CapitalsArePreceded(s[1..]);
      var head := if IsUpper(s[0]) then [' ', s[0]] else [s[0]];
      var tail := SpaceBeforeCapitals(s[1..]);
      assert SpaceBeforeCapitals(s) == head + tail;
      forall i | 0 <= i < |head + tail| && IsUpper((head + tail)[i])
        ensures 0 < i && (head + tail)[i - 1] == ' '
      {
        if i >= |head| {
          assert (head + tail)[i] == tail[i - |head|];
          if i - |head| > 0 {
            assert (head + tail)[i - 1] == tail[i - |head| - 1];
          }
        }
      }
    }
  }

  /** Only spaces are inserted: removing them gives back a key without spaces. */
  lemma {:induction false} RemoveSpacesUndoesInsertion(s: string)
    requires ' ' !in s
    ensures RemoveSpaces(SpaceBeforeCapitals(s)) == s
  {
    if s != [] {
      assert s[0] != ' ';
      assert ' ' !in s[1..] by {
        assert forall k :: 0 <= k < |s[1..]| ==> s[1..][k] == s[k + 1];
      }
      RemoveSpacesUndoesInsertion(s[1..]);
      var head := if IsUpper(s[0]) then [' ', s[0]] else [s[0]];
      var tail := SpaceBeforeCapitals(s[1..]);
      assert SpaceBeforeCapitals(s) == head + tail;
      RemoveSpacesAppend(head, tail);
      assert RemoveSpaces(head) == [s[0]] by {
        if IsUpper(s[0]) {
          assert head[1..] == [s[0]];
        }
      }
      assert [s[0]] + s[1..] == s;
    }
  }

  lemma {:induction false} RemoveSpacesAppend(a: string, b: string)
    ensures RemoveSpaces(a + b) == RemoveSpaces(a) + RemoveSpaces(b)
  {
    if a == [] {
      assert a + b == b;
    } else {
      var head := if a[0] == ' ' then [] else [a[0]];
      assert (a + b)[0] == a[0] && (a + b)[1..] == a[1..] + b;
      assert RemoveSpaces(a + b) == head + RemoveSpaces(a[1..] + b);
      assert RemoveSpaces(a) == head + RemoveSpaces(a[1..]);
      RemoveSpacesAppend(a[1..], b);
    }
  }

  lemma {:induction false} SpaceBeforeCapitalsAppend(a: string, b: string)
    ensures SpaceBeforeCapitals(a + b) == SpaceBeforeCapitals(a) + SpaceBeforeCapitals(b)
  {
    if a == [] {
      assert a + b == b;
    } else {
      assert (a + b)[1..] == a[1..] + b;
      SpaceBeforeCapitalsAppend(a[1..], b);
    }
  }

  predicate NoCapitals(s: string)
  {
    forall i :: 0 <= i < |s| ==> !IsUpper(s[i])
  }

  /** A capitalised word gains one leading space. */
  lemma SpaceBeforeCapitalisedWord(w: string)
    requires |w| > 0 && IsUpper(w[0]) && NoCapitals(w[1..])
    ensures SpaceBeforeCapitals(w) == " " + w
  {
    assert SpaceBeforeCapitals(w) == [' ', w[0]] + w[1..];
    assert [w[0]] + w[1..] == w;
  }

  /** A camelCase key of three words becomes three words separated by single
      spaces, the first one capitalised. */
  lemma HumanizeThreeWords(first: string, second: string, third: string)
    requires |first| > 0 && NoCapitals(first)
    requires |second| > 0 && IsUpper(second[0]) && NoCapitals(second[1..])
    requires |third| > 0 && IsUpper(third[0]) && NoCapitals(third[1..])
    ensures Humanize(first + second + third)
            == [ToUpper(first[0])] + first[1..] + " " + second + " " + third
  {
    var spaced := first + " " + second + " " + third;
    assert SpaceBeforeCapitals(first + second + third) == spaced by {
      SpaceBeforeCapitalisedWord(second);
      SpaceBeforeCapitalisedWord(third);
      SpaceBeforeCapitalsAppend(first, second);
      SpaceBeforeCapitalsAppend(first + second, third);
    }
    assert spaced[0] == first[0];
    assert spaced[1..] == first[1..] + " " + second + " " + third;
    var r := CapitalizeFirst(spaced);
    assert r == [r[0]] + r[1..];
  }

  /** The label of the first input, "Seconds Per Minute"; the other five keys
      follow the same three-word pattern. */
  lemma SecondsPerMinuteLabel()
    ensures Humanize(FieldKey(SecondsPerMinute)) == "Seconds Per Minute"
  {
    SecondsPerMinuteWords();
    HumanizeThreeWords("seconds", "Per", "Minute");
    SecondsPerMinuteSpelling();
  }

  lemma SecondsPerMinuteWords()
    ensures NoCapitals("seconds") && NoCapitals("Per"[1..]) && NoCapitals("Minute"[1..])
    ensures IsUpper("Per"[0]) && IsUpper("Minute"[0])
    ensures "seconds" + "Per" + "Minute" == FieldKey(SecondsPerMinute)
  {
  }

  lemma SecondsPerMinuteSpelling()
    ensures [ToUpper("seconds"[0])] + "seconds"[1..] + " " + "Per" + " " + "Minute" == "Seconds Per Minute"
  {
    assert "seconds"[0] == 's' && "seconds"[1..] == "econds";
    assert ToUpper('s') == 'S';
  }
}
