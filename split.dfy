/**
 * Java's `String.split` for a regular expression that matches one character, as
 * `XKit.key` uses it (`algorithm.split("[/]")[0]`) to find the key-generator family.
 */
module JavaSplit {
  import opened Wrappers

  /** The pieces of `s` between the occurrences of `sep`, empty ones included. */
  function Pieces(s: string, sep: char): (r: seq<string>)
    ensures |r| >= 1
    ensures forall k :: 0 <= k < |r| ==> sep !in r[k]
    ensures |r| == 1 <==> sep !in s
  {
    if s == [] then [[]]
    else
      var rest := Pieces(s[1..], sep);
      assert sep in s <==> s[0] == sep || sep in s[1..] by {
        assert s == [s[0]] + s[1..];
      }
      if s[0] == sep then [[]] + rest
      else [[s[0]] + rest[0]] + rest[1..]
  }

  /** The pieces glued back together with `sep` between neighbours. */
  function Join(ps: seq<string>, sep: char): string
  {
    if ps == [] then []
    else if |ps| == 1 then ps[0]
    else ps[0] + [sep] + Join(ps[1..], sep)
  }

  /** `ps` without its trailing empty strings. */
  function DropTrailingEmpty(ps: seq<string>): (r: seq<string>)
    ensures r <= ps
    ensures r == [] || r[|r| - 1] != []
    ensures forall k :: |r| <= k < |ps| ==> ps[k] == []
  {
    if ps == [] then []
    else if ps[|ps| - 1] == [] then DropTrailingEmpty(ps[..|ps| - 1])
    else ps
  }

  /**
   * `s.split(regex)` with limit 0, for a regex that matches exactly `sep`: when
   * nothing matches, the array holds `s` alone (even an empty `s`); otherwise
   * the pieces, with trailing empty strings removed.
   */
  function Split(s: string, sep: char): (r: seq<string>)
    ensures forall k :: 0 <= k < |r| ==> sep !in r[k]
    ensures r == [] || r[|r| - 1] != [] || r == [s]
  {
    if sep !in s then [s] else DropTrailingEmpty(Pieces(s, sep))
  }

  /** `algorithm.split("[/]")[0]`, or `None` where the array is empty and indexing it throws. */
  function BaseName(algorithm: string): (r: Option<string>)
    ensures r.None? <==> algorithm != [] && forall k :: 0 <= k < |algorithm| ==> algorithm[k] == '/'
    ensures r.Some? ==> r.value <= algorithm && '/' !in r.value
    ensures r.Some? && |r.value| < |algorithm| ==> algorithm[|r.value|] == '/'
  {
    SplitEmpty(algorithm, '/');
    PiecesFirstIsPrefix(algorithm, '/');
    var parts := Split(algorithm, '/');
    if parts == [] then None
    else
      assert parts[0] == Pieces(algorithm, '/')[0];
      Some(parts[0])
  }

  lemma {:induction false} JoinPieces(s: string, sep: char)
    ensures Join(Pieces(s, sep), sep) == s
    decreases |s|
  {
    if s != [] {
      JoinPieces(s[1..], sep);
      JoinPiecesStep(s, sep);
    }
  }

  /** One step of JoinPieces: from the pieces of `s[1..]` to those of `s`. */
  lemma JoinPiecesStep(s: string, sep: char)
    requires s != [] && Join(Pieces(s[1..], sep), sep) == s[1..]
    ensures Join(Pieces(s, sep), sep) == s
  {
    var rest := Pieces(s[1..], sep);
    assert s == [s[0]] + s[1..];
    if s[0] == sep {
      assert Pieces(s, sep) == [[]] + rest;
      JoinCons([], rest, sep);
    } else {
      var first := [s[0]] + rest[0];
      assert Pieces(s, sep) == [first] + rest[1..];
      JoinFirstGrows(s[0], rest, sep);
    }
  }

  /** Prepending a character to the first piece prepends it to the joined text. */
  lemma JoinFirstGrows(c: char, ps: seq<string>, sep: char)
    requires ps != []
    ensures Join([[c] + ps[0]] + ps[1..], sep) == [c] + Join(ps, sep)
  {
    if |ps| > 1 {
      assert ps == [ps[0]] + ps[1..];
      JoinCons(ps[0], ps[1..], sep);
      JoinCons([c] + ps[0], ps[1..], sep);
    }
  }

  lemma JoinCons(p: string, ps: seq<string>, sep: char)
    requires ps != []
    ensures Join([p] + ps, sep) == p + [sep] + Join(ps, sep)
  {
    assert ([p] + ps)[1..] == ps;
  }

  lemma {:induction false} JoinSnoc(ps: seq<string>, p: string, sep: char)
    requires ps != []
    ensures Join(ps + [p], sep) == Join(ps, sep) + [sep] + p
    decreases |ps|
  {
    if |ps| == 1 {
      assert ps + [p] == [ps[0], p];
      assert [ps[0], p][1..] == [p];
    } else {
      assert (ps + [p])[1..] == ps[1..] + [p];
      JoinSnoc(ps[1..], p, sep);
    }
  }

  /** Dropping trailing empty pieces only shortens the joined text by separators. */
  lemma {:induction false} JoinDropTrailingEmpty(ps: seq<string>, sep: char)
    ensures var j := Join(DropTrailingEmpty(ps), sep);
      j <= Join(ps, sep) && forall k :: |j| <= k < |Join(ps, sep)| ==> Join(ps, sep)[k] == sep
    decreases |ps|
  {
    if ps != [] && ps[|ps| - 1] == [] {
      var init := ps[..|ps| - 1];
      assert ps == init + [[]];
      JoinDropTrailingEmpty(init, sep);
      if init != [] {
        JoinSnoc(init, [], sep);
        assert Join(ps, sep) == Join(init, sep) + [sep];
      }
    }
  }

  /** The first piece is the text before the first separator. */
  lemma {:induction false} PiecesFirst(s: string, sep: char, i: nat)
    requires i <= |s| && sep !in s[..i] && (i < |s| ==> s[i] == sep)
    ensures Pieces(s, sep)[0] == s[..i]
    decreases |s|
  {
    if s != [] {
      if i == 0 {
        assert s[..0] == [];
      } else {
        assert s[0] in s[..i];
        assert (s[1..])[..i - 1] == s[1..i];
        assert sep !in s[1..i] by {
          assert forall c :: c in s[1..i] ==> c in s[..i];
        }
        PiecesFirst(s[1..], sep, i - 1);
        assert s[..i] == [s[0]] + s[1..i];
      }
    }
  }

  /** The first piece is a prefix of `s`, followed in `s` by a separator or by nothing. */
  lemma {:induction false} PiecesFirstIsPrefix(s: string, sep: char)
    ensures var first := Pieces(s, sep)[0];
      first <= s && (|first| < |s| ==> s[|first|] == sep)
    decreases |s|
  {
    if s != [] && s[0] != sep {
      var rest := Pieces(s[1..], sep);
      PiecesFirstIsPrefix(s[1..], sep);
      assert Pieces(s, sep)[0] == [s[0]] + rest[0];
      assert s == [s[0]] + s[1..];
      if |rest[0]| < |s[1..]| {
        assert s[1..][|rest[0]|] == s[|rest[0]| + 1];
      }
    }
  }

  /** All pieces are empty exactly when `s` is made of separators only. */
  lemma {:induction false} PiecesAllEmpty(s: string, sep: char)
    ensures (forall k :: 0 <= k < |Pieces(s, sep)| ==> Pieces(s, sep)[k] == [])
        <==> (forall k :: 0 <= k < |s| ==> s[k] == sep)
    decreases |s|
  {
    if s != [] {
      PiecesAllEmpty(s[1..], sep);
      var rest := Pieces(s[1..], sep);
      var r := Pieces(s, sep);
      if s[0] == sep {
        assert r[1..] == rest;
        assert (forall k :: 0 <= k < |r| ==> r[k] == []) <==> (forall k :: 0 <= k < |rest| ==> rest[k] == []) by {
          assert r[0] == [];
          assert forall k :: 1 <= k < |r| ==> r[k] == rest[k - 1];
        }
        assert (forall k :: 0 <= k < |s| ==> s[k] == sep) <==> (forall k :: 0 <= k < |s[1..]| ==> s[1..][k] == sep) by {
          assert forall k :: 1 <= k < |s| ==> s[k] == s[1..][k - 1];
        }
      } else {
        assert r[0] != [];
      }
    }
  }

  /** Split returns nothing exactly for a non-empty string of separators only. */
  lemma SplitEmpty(s: string, sep: char)
    ensures Split(s, sep) == [] <==> s != [] && forall k :: 0 <= k < |s| ==> s[k] == sep
  {
    if sep in s {
      var ps := Pieces(s, sep);
      PiecesAllEmpty(s, sep);
      var r := DropTrailingEmpty(ps);
      if r != [] {
        assert r[|r| - 1] == ps[|r| - 1];
        assert ps[|r| - 1] != [];
        assert Split(s, sep) != [];
      } else {
        assert forall k :: 0 <= k < |ps| ==> ps[k] == [];
        assert s != [];
      }
    } else if s != [] {
      assert s[0] in s;
    }
  }

  /** Joining the result of Split gives `s` back, short only of trailing separators. */
  lemma SplitJoin(s: string, sep: char)
    ensures var j := Join(Split(s, sep), sep);
      j <= s && forall k :: |j| <= k < |s| ==> s[k] == sep
  {
    if sep in s {
      JoinPieces(s, sep);
      JoinDropTrailingEmpty(Pieces(s, sep), sep);
    }
  }

  /**
   * The key-generator family is the text before the first `/`, and there is
   * none (indexing the empty array throws) exactly for a non-empty string of `/` only.
   */
  lemma BaseNameIsPrefix(algorithm: string, i: nat)
    requires i <= |algorithm| && '/' !in algorithm[..i] && (i < |algorithm| ==> algorithm[i] == '/')
    ensures BaseName(algorithm).None? <==>
            algorithm != [] && forall k :: 0 <= k < |algorithm| ==> algorithm[k] == '/'
    ensures BaseName(algorithm).Some? ==> BaseName(algorithm).value == algorithm[..i]
  {
    SplitEmpty(algorithm, '/');
    if '/' in algorithm {
      PiecesFirst(algorithm, '/', i);
      var ps := Pieces(algorithm, '/');
      var r := DropTrailingEmpty(ps);
      if r != [] {
        assert r[0] == ps[0];
      }
    } else {
      assert forall k :: 0 <= k < |algorithm| ==> algorithm[k] != '/';
      assert algorithm[..i] == algorithm;
    }
  }

  /** `"AES/CBC/PKCS5Padding"` selects the family `"AES"`. */
  lemma BaseNameOfTransformation()
    ensures BaseName("AES/CBC/PKCS5Padding") == Some("AES")
  {
    var a := "AES/CBC/PKCS5Padding";
    assert a[..3] == "AES";
    BaseNameIsPrefix(a, 3);
    assert a[0] != '/';
  }

  /** A string of `/` only has no family; the empty string has the empty family. */
  lemma BaseNameEdgeCases()
    ensures BaseName("//") == None
    ensures BaseName("") == Some("")
    ensures BaseName("/AES") == Some("")
  {
  }
}
