/**
 * The label and verdict pipeline of the recycling page: the fixed dictionary
 * from the classifier's raw class names to display names, the name
 * normalisation, and the substring heuristic that decides "recyclable".
 */
module Labels {

  /** A JavaScript value that is either a string or `null`/`undefined`. */
  datatype JsString = Nullish | Str(s: string)

  /** JavaScript's `v || d` on a possibly missing string: the empty string is falsy too. */
  function OrElse(v: JsString, d: string): string
  {
    match v
    case Nullish => d
    case Str(s) => if s != [] then s else d
  }

  /** The dictionary `CLASS_LABELS`: the raw names a freshly trained model reports. */
  const ClassLabels: map<string, string> :=
    map["Class 1" := "No Reciclable", "Class 2" := "Reciclable"]

  /** `CLASS_LABELS[name] || name`: a dictionary hit that is a non-empty string, else the name itself. */
  function MapLabel(name: string): (r: string)
    ensures name == "Class 1" ==> r == "No Reciclable"
    ensures name == "Class 2" ==> r == "Reciclable"
    ensures name != "Class 1" && name != "Class 2" ==> r == name
  {
    if name in ClassLabels && ClassLabels[name] != "" then ClassLabels[name] else name
  }

  /** Mapping a display name again changes nothing; buildBars relies on this when it is handed mapped names. */
  lemma MapLabelIdempotent(name: string)
    ensures MapLabel(MapLabel(name)) == MapLabel(name)
  {
  }

  /** ASCII upper-case letters; the model's `toLowerCase` only folds these. */
  predicate IsUpper(c: char)
  {
    'A' <= c <= 'Z'
  }

  /** The case fold of `toLowerCase` on ASCII: 'A'..'Z' move to 'a'..'z', all else is kept. */
  function Lower(c: char): char
  {
    if IsUpper(c) then (c as int + 32) as char else c
  }

  /** The characters matched by the regular expression class `\s` of ECMAScript: WhiteSpace and LineTerminator. */
  predicate IsJsSpace(c: char)
  {
    if c <= ' ' then c == ' ' || '\t' <= c <= '\r'
    else
      '\U{A0}' <= c &&
      (c == '\U{A0}' || c == '\U{1680}' || ('\U{2000}' <= c <= '\U{200A}')
       || c == '\U{2028}' || c == '\U{2029}' || c == '\U{202F}' || c == '\U{205F}'
       || c == '\U{3000}' || c == '\U{FEFF}')
  }

  /** The characters removed by `replace(/\s|_/g, "")`. */
  predicate IsStripped(c: char)
  {
    IsJsSpace(c) || c == '_'
  }

  /** A string already in normal form: nothing left to fold or strip. */
  predicate IsNormal(s: string)
  {
    forall i :: 0 <= i < |s| ==> !IsUpper(s[i]) && !IsStripped(s[i])
  }

  /** `s.toLowerCase().replace(/\s|_/g, "")`: fold each character, then drop the stripped ones. */
  function NormalizeText(s: string): string
  {
    if s == [] then []
    else
      var c := Lower(s[0]);
      (if IsStripped(c) then [] else [c]) + NormalizeText(s[1..])
  }

  /** Nothing upper-case, no white space and no underscore survives normalisation. */
  lemma {:induction false} NormalizeTextIsNormal(s: string)
    ensures IsNormal(NormalizeText(s))
    ensures |NormalizeText(s)| <= |s|
  {
    if s != [] {
      NormalizeTextIsNormal(s[1..]);
      var c := Lower(s[0]);
      var head: string := if IsStripped(c) then [] else [c];
      assert NormalizeText(s) == head + NormalizeText(s[1..]);
      assert IsNormal(head);
    }
  }

  /** `normalizeName`: a missing or empty name normalises to the empty string. */
  function NormalizeName(name: JsString): (r: string)
    ensures name.Nullish? ==> r == []
  {
    NormalizeText(OrElse(name, ""))
  }

  /** Normalisation works character by character, so it distributes over concatenation. */
  lemma {:induction false} NormalizeTextAppend(a: string, b: string)
    ensures NormalizeText(a + b) == NormalizeText(a) + NormalizeText(b)
    decreases |a|
  {
    if a == [] {
      assert a + b == b;
    } else {
      assert (a + b)[0] == a[0];
      assert (a + b)[1..] == a[1..] + b;
      NormalizeTextAppend(a[1..], b);
    }
  }

  /** A string in normal form is a fixed point of normalisation. */
  lemma {:induction false} NormalizeTextFixed(s: string)
    requires IsNormal(s)
    ensures NormalizeText(s) == s
  {
    if s != [] {
      assert !IsUpper(s[0]) && !IsStripped(s[0]);
      assert IsNormal(s[1..]) by {
        forall i | 0 <= i < |s[1..]|
          ensures !IsUpper(s[1..][i]) && !IsStripped(s[1..][i])
        {
          assert s[1..][i] == s[i + 1];
        }
      }
      NormalizeTextFixed(s[1..]);
      assert [s[0]] + s[1..] == s;
    }
  }

  /**
   * Normalisation ignores case: two strings that agree character by
   * character once folded normalise alike, so a capital and its lower-case
   * letter are interchangeable.
   */
  lemma {:induction false} NormalizeTextIgnoresCase(s: string, t: string)
    requires |s| == |t|
    requires forall i :: 0 <= i < |s| ==> Lower(s[i]) == Lower(t[i])
    ensures NormalizeText(s) == NormalizeText(t)
    decreases |s|
  {
    if s != [] {
      assert Lower(s[0]) == Lower(t[0]);
      assert forall i :: 0 <= i < |s[1..]| ==> Lower(s[1..][i]) == Lower(t[1..][i]) by {
        forall i | 0 <= i < |s[1..]|
          ensures Lower(s[1..][i]) == Lower(t[1..][i])
        {
          assert s[1..][i] == s[i + 1] && t[1..][i] == t[i + 1];
        }
      }
      NormalizeTextIgnoresCase(s[1..], t[1..]);
    }
  }

  /** A white-space character or underscore vanishes wherever it stands. */
  lemma NormalizeTextDropsStripped(a: string, c: char, b: string)
    requires IsStripped(c)
    ensures NormalizeText(a + [c] + b) == NormalizeText(a + b)
  {
    NormalizeTextAppend(a + [c], b);
    NormalizeTextAppend(a, [c]);
    NormalizeTextAppend(a, b);
    assert NormalizeText([c]) == [] by {
      assert [c][1..] == [];
    }
  }

  /** A character that is neither white space nor an underscore survives, folded to lower case. */
  lemma NormalizeTextKeepsFolded(a: string, c: char, b: string)
    requires !IsStripped(c)
    ensures NormalizeText(a + [c] + b) == NormalizeText(a) + [Lower(c)] + NormalizeText(b)
  {
    NormalizeTextAppend(a + [c], b);
    NormalizeTextAppend(a, [c]);
    assert NormalizeText([c]) == [Lower(c)] by {
      assert [c][1..] == [];
      assert IsStripped(Lower(c)) == IsStripped(c);
    }
  }

  /** `normalizeName` is idempotent (on the name it produces, which is a string). */
  lemma NormalizeNameIdempotent(name: JsString)
    ensures NormalizeName(Str(NormalizeName(name))) == NormalizeName(name)
  {
    NormalizeTextIsNormal(OrElse(name, ""));
    NormalizeTextFixed(NormalizeName(name));
  }

  /** `pattern` occurs in `text` starting at index `i`. */
  predicate OccursAt(text: string, pattern: string, i: int)
  {
    0 <= i <= |text| - |pattern| && text[i..i + |pattern|] == pattern
  }

  /** An occurrence of `pattern` in `text[1..]` is one in `text` shifted by one place, and back. */
  lemma ShiftOccurrence(text: string, pattern: string)
    requires |text| >= 1
    ensures (exists i :: OccursAt(text[1..], pattern, i)) <==> (exists i :: 1 <= i && OccursAt(text, pattern, i))
  {
    if i :| OccursAt(text[1..], pattern, i) {
      assert text[i + 1..i + 1 + |pattern|] == text[1..][i..i + |pattern|];
      assert OccursAt(text, pattern, i + 1);
    }
    if i :| 1 <= i && OccursAt(text, pattern, i) {
      assert text[1..][i - 1..i - 1 + |pattern|] == text[i..i + |pattern|];
      assert OccursAt(text[1..], pattern, i - 1);
    }
  }

  /** Whether `pattern` occurs in `text`, scanning start positions left to right as a regular expression search does. */
  function Contains(text: string, pattern: string): bool
    decreases |text|
  {
    if |text| < |pattern| then false
    else text[..|pattern|] == pattern || Contains(text[1..], pattern)
  }

  /** The scan finds `pattern` exactly when it occurs somewhere in `text`. */
  lemma {:induction false} ContainsOccurs(text: string, pattern: string)
    ensures Contains(text, pattern) <==> exists i :: OccursAt(text, pattern, i)
    decreases |text|
  {
    if |text| < |pattern| {
    } else if text[..|pattern|] == pattern {
      assert OccursAt(text, pattern, 0);
    } else {
      assert !OccursAt(text, pattern, 0);
      ShiftOccurrence(text, pattern);
      ContainsOccurs(text[1..], pattern);
    }
  }

  /** `isRecyclableClass`: the test of `/reciclable|recycle/` against the normalised name. */
  predicate IsRecyclableClass(name: JsString)
  {
    var n := NormalizeName(name);
    Contains(n, "reciclable") || Contains(n, "recycle")
  }

  /** A name is judged recyclable exactly when "reciclable" or "recycle" occurs as a block of its normal form. */
  lemma RecyclableIffOccurs(name: JsString)
    ensures IsRecyclableClass(name) <==>
      (exists i :: OccursAt(NormalizeName(name), "reciclable", i)) || (exists i :: OccursAt(NormalizeName(name), "recycle", i))
  {
    ContainsOccurs(NormalizeName(name), "reciclable");
    ContainsOccurs(NormalizeName(name), "recycle");
  }

  /** `isSecureContext`: the page's own test, an exact match on the protocol or on the host name. */
  predicate IsSecureContext(protocol: string, hostname: string)
  {
    protocol == "https:" || hostname == "localhost"
  }

  /** Only the host name "localhost" is accepted: a loopback address over plain HTTP is refused. */
  lemma LoopbackAddressRefused()
    ensures !IsSecureContext("http:", "127.0.0.1")
    ensures IsSecureContext("http:", "localhost")
    ensures !IsSecureContext("HTTPS:", "example.org")
  {
  }
}

/**
 * What the heuristic makes of the two entries of the dictionary: the word
 * "Reciclable" is found whatever precedes it, so a negation in front of it
 * does not change the verdict.
 */
module DictionaryVerdicts {
  import opened Labels

  /** Normalising a string that ends in normal form leaves that ending as it is. */
  lemma NormalizeKeepsNormalSuffix(a: string, w: string)
    requires IsNormal(w)
    ensures NormalizeText(a + w) == NormalizeText(a) + w
  {
    NormalizeTextAppend(a, w);
    NormalizeTextFixed(w);
  }

  /** A pattern is found at the end of any text. */
  lemma ContainsAtEnd(x: string, p: string)
    ensures Contains(x + p, p)
  {
    assert (x + p)[|x|..|x| + |p|] == p;
    assert OccursAt(x + p, p, |x|);
    ContainsOccurs(x + p, p);
  }

  /** Any display name ending in "Reciclable" is judged recyclable, whatever comes before it. */
  lemma {:induction false} EndingInReciclableIsRecyclable(prefix: string)
    ensures IsRecyclableClass(Str(prefix + "Reciclable"))
  {
    var tail := "eciclable";
    assert IsNormal(tail);
    assert prefix + "Reciclable" == (prefix + "R") + tail;
    NormalizeKeepsNormalSuffix(prefix + "R", tail);
    NormalizeTextAppend(prefix, "R");
    assert NormalizeText("R") == "r";
    assert NormalizeText(prefix) + "r" + tail == NormalizeText(prefix) + "reciclable";
    ContainsAtEnd(NormalizeText(prefix), "reciclable");
    assert OrElse(Str(prefix + "Reciclable"), "") == prefix + "Reciclable";
  }

  /**
   * The heuristic does not tell the two classes of the dictionary apart:
   * "No Reciclable", the display name of "Class 1", is judged recyclable
   * exactly like "Reciclable", the display name of "Class 2".
   */
  lemma BothClassesRecyclable()
    ensures IsRecyclableClass(Str(MapLabel("Class 1")))
    ensures IsRecyclableClass(Str(MapLabel("Class 2")))
  {
    NonRecyclableClassJudgedRecyclable();
    RecyclableClassJudgedRecyclable();
  }

  lemma NonRecyclableClassJudgedRecyclable()
    ensures IsRecyclableClass(Str(MapLabel("Class 1")))
  {
    assert MapLabel("Class 1") == "No Reciclable";
    assert "No Reciclable" == "No " + "Reciclable";
    EndingInReciclableIsRecyclable("No ");
  }

  lemma RecyclableClassJudgedRecyclable()
    ensures IsRecyclableClass(Str(MapLabel("Class 2")))
  {
    assert MapLabel("Class 2") == "Reciclable";
    assert "Reciclable" == "" + "Reciclable";
    EndingInReciclableIsRecyclable("");
  }
}
