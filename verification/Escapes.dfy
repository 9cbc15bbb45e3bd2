/** The sanitizer's byte trigger: which JSON encoders write the placeholder so that the trigger sees it. */
module Escapes {
  import opened Placeholders

  /** The part of the placeholder that the sanitizer looks for in the bytes of a body. */
  const TRIGGER: string := "deepseek_image"

  /** A JSON string as an encoder writes it: `e(c)` is what it writes for the character `c`. */
  function Escaped(s: string, e: char -> string): string
  {
    if s == "" then "" else e(s[0]) + Escaped(s[1..], e)
  }

  lemma Associates(a: string, b: string, c: string)
    ensures a + (b + c) == a + b + c
  {
  }

  lemma {:induction false} EscapedJoins(a: string, b: string, e: char -> string)
    ensures Escaped(a + b, e) == Escaped(a, e) + Escaped(b, e)
  {
    if a == "" {
      assert a + b == b;
    } else {
      EscapedJoins(a[1..], b, e);
      assert (a + b)[0] == a[0] && (a + b)[1..] == a[1..] + b;
      Associates(e(a[0]), Escaped(a[1..], e), Escaped(b, e));
    }
  }

  lemma ContainsWithin(a: string, m: string, b: string, p: string)
    requires Contains(m, p)
    ensures Contains(a + m + b, p)
  {
    var i :| OccursAt(m, p, i);
    assert (a + m + b)[|a| + i..][..|p|] == m[i..][..|p|];
    assert OccursAt(a + m + b, p, |a| + i);
  }

  /** What an encoder writes for a part of a text is part of what it writes for the text. */
  lemma EscapedWithin(s: string, p: string, t: string, e: char -> string)
    requires Contains(s, p) && Contains(Escaped(p, e), t)
    ensures Contains(Escaped(s, e), t)
  {
    var i :| OccursAt(s, p, i);
    var before, behind := s[..i], s[i + |p|..];
    assert s == before + p + behind;
    EscapedJoins(before + p, behind, e);
    EscapedJoins(before, p, e);
    ContainsWithin(Escaped(before, e), Escaped(p, e), Escaped(behind, e), t);
  }

  lemma ContainsItself(p: string)
    ensures Contains(p, p)
  {
    assert p[0..] == p;
    assert OccursAt(p, p, 0);
  }

  /** The byte trigger misses no placeholder of a client, whatever the text around it, if and only if what the client's
      encoder writes for the placeholder itself holds the trigger. */
  lemma TriggerMissesNoneIff(e: char -> string)
    ensures (forall s :: Contains(s, PLACEHOLDER) ==> Contains(Escaped(s, e), TRIGGER))
            <==> Contains(Escaped(PLACEHOLDER, e), TRIGGER)
  {
    ContainsItself(PLACEHOLDER);
    if Contains(Escaped(PLACEHOLDER, e), TRIGGER) {
      forall s | Contains(s, PLACEHOLDER)
        ensures Contains(Escaped(s, e), TRIGGER)
      {
        EscapedWithin(s, PLACEHOLDER, TRIGGER, e);
      }
    }
  }

  lemma {:induction false} EscapedPlain(s: string, e: char -> string)
    requires forall c :: c in s ==> e(c) == [c]
    ensures Escaped(s, e) == s
  {
    if s != "" {
      EscapedPlain(s[1..], e);
    }
  }

  /** A part that the encoder leaves alone stands in what it writes. */
  lemma PlainPart(s: string, t: string, e: char -> string)
    requires Contains(s, t) && forall c :: c in t ==> e(c) == [c]
    ensures Contains(Escaped(s, e), t)
  {
    EscapedPlain(t, e);
    ContainsItself(t);
    EscapedWithin(s, t, t, e);
  }

  /** Encoders that leave the trigger's ASCII letters alone are seen, whatever they do with other characters. */
  lemma PlainLettersAreSeen(e: char -> string)
    requires forall c :: c in TRIGGER ==> e(c) == [c]
    ensures Contains(Escaped(PLACEHOLDER, e), TRIGGER)
  {
    assert PLACEHOLDER[2..][..14] == TRIGGER;
    assert OccursAt(PLACEHOLDER, TRIGGER, 2);
    PlainPart(PLACEHOLDER, TRIGGER, e);
  }

  lemma {:induction false} EscapedWithout(s: string, e: char -> string, x: char)
    requires forall c :: x !in e(c)
    ensures x !in Escaped(s, e)
  {
    if s != "" {
      EscapedWithout(s[1..], e, x);
    }
  }

  lemma CharOfPart(s: string, t: string, x: char)
    requires Contains(s, t) && x in t
    ensures x in s
  {
    var i :| OccursAt(s, t, i);
    var k :| 0 <= k < |t| && t[k] == x;
    assert s[i..][..|t|][k] == s[i + k];
  }

  /** One that writes a letter of the trigger as an escape is not: its placeholders are passed on unparsed. */
  lemma EscapedLetterIsMissed(e: char -> string, x: char, s: string)
    requires x in TRIGGER && forall c :: x !in e(c)
    ensures !Contains(Escaped(s, e), TRIGGER)
  {
    EscapedWithout(s, e, x);
    if Contains(Escaped(s, e), TRIGGER) {
      CharOfPart(Escaped(s, e), TRIGGER, x);
      assert false;
    }
  }
}
