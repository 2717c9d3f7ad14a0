/** The environment-variable names of the configuration: the decoder of the commands and the encoding it inverts. */
module KeyDecoder {
  const PREFIX: string := "AUTH_"

  predicate StartsWith(s: string, p: string) {
    |p| <= |s| && s[..|p|] == p
  }

  /** strings.TrimPrefix. */
  function TrimPrefix(s: string, p: string): string {
    if StartsWith(s, p) then s[|p|..] else s
  }

  /** strings.ReplaceAll for a non-empty pattern: leftmost, non-overlapping. */
  function ReplaceAll(s: string, from: string, to: string): string
    requires from != ""
  {
    if s == "" then ""
    else if StartsWith(s, from) then to + ReplaceAll(s[|from|..], from, to)
    else [s[0]] + ReplaceAll(s[1..], from, to)
  }

  predicate IsAscii(c: char) {
    c < 128 as char
  }

  /** unicode.ToLower: `fold` stands for its table outside ASCII, whatever that is. */
  function LowerChar(c: char, fold: char -> char): char {
    if !IsAscii(c) then fold(c) else if 'A' <= c <= 'Z' then ((c as int) + 32) as char else c
  }

  function UpperChar(c: char): char {
    if 'a' <= c <= 'z' then ((c as int) - 32) as char else c
  }

  /** strings.ToLower. */
  function Lower(s: string, fold: char -> char): string {
    if s == "" then "" else [LowerChar(s[0], fold)] + Lower(s[1..], fold)
  }

  function Upper(s: string): string {
    if s == "" then "" else [UpperChar(s[0])] + Upper(s[1..])
  }

  /** The key part of the TransformFunc: four rewrites of k. */
  function Decode(name: string, fold: char -> char): string {
    var k := TrimPrefix(name, PREFIX);
    var k := ReplaceAll(k, "_", ".");
    var k := ReplaceAll(k, "..", "_");
    Lower(k, fold)
  }

  /** The intended encoding of a configuration key: "_" is doubled, "." becomes "_". */
  function Escape(key: string): string {
    if key == "" then ""
    else (if key[0] == '_' then "__" else if key[0] == '.' then "_" else [key[0]]) + Escape(key[1..])
  }

  function Encode(key: string): string {
    PREFIX + Upper(Escape(key))
  }

  predicate IsSeparator(c: char) {
    c == '_' || c == '.'
  }

  /** One pass from the left: two separators in a row become "_", a single one becomes ".". */
  function Scan(s: string): string {
    if s == "" then ""
    else if !IsSeparator(s[0]) then [s[0]] + Scan(s[1..])
    else if |s| >= 2 && IsSeparator(s[1]) then "_" + Scan(s[2..])
    else "." + Scan(s[1..])
  }

  lemma StartsWithChar(s: string, c: char)
    requires s != ""
    ensures StartsWith(s, [c]) <==> s[0] == c
  {
    assert s[..1] == [s[0]];
  }

  lemma StartsWithTwo(s: string)
    requires s != ""
    ensures StartsWith(s, "..") <==> |s| >= 2 && s[0] == '.' && s[1] == '.'
  {
    if |s| >= 2 {
      assert s[..2] == [s[0], s[1]];
    }
  }

  /** What the first pass does, character by character. */
  lemma {:induction false} FirstPass(s: string)
    ensures var t := ReplaceAll(s, "_", ".");
            |t| == |s| && forall i :: 0 <= i < |s| ==> t[i] == if s[i] == '_' then '.' else s[i]
  {
    if s != "" {
      StartsWithChar(s, '_');
      FirstPass(s[1..]);
      var t := ReplaceAll(s, "_", ".");
      assert t[1..] == ReplaceAll(s[1..], "_", ".");
      forall i | 0 <= i < |s| ensures t[i] == if s[i] == '_' then '.' else s[i] {
        if i > 0 {
          assert t[i] == t[1..][i - 1];
        }
      }
    }
  }

  /** The two passes are one left-to-right scan. */
  lemma {:induction false} SecondPassIsScan(s: string, t: string)
    requires |t| == |s| && forall i :: 0 <= i < |s| ==> t[i] == if s[i] == '_' then '.' else s[i]
    ensures ReplaceAll(t, "..", "_") == Scan(s)
    decreases |s|
  {
    if s != "" {
      StartsWithTwo(t);
      if |s| >= 2 && IsSeparator(s[0]) && IsSeparator(s[1]) {
        SecondPassIsScan(s[2..], t[2..]);
      } else {
        SecondPassIsScan(s[1..], t[1..]);
      }
    }
  }

  lemma TwoPassesAreAScan(s: string)
    ensures ReplaceAll(ReplaceAll(s, "_", "."), "..", "_") == Scan(s)
  {
    FirstPass(s);
    SecondPassIsScan(s, ReplaceAll(s, "_", "."));
  }

  /** The decoder is trim, scan, lower-case. */
  lemma DecodeIsScan(name: string, fold: char -> char)
    ensures Decode(name, fold) == Lower(Scan(TrimPrefix(name, PREFIX)), fold)
  {
    TwoPassesAreAScan(TrimPrefix(name, PREFIX));
  }

  /** A dot is never followed by a dot or an underscore. */
  ghost predicate Unambiguous(key: string) {
    forall i :: 0 <= i < |key| - 1 && key[i] == '.' ==> !IsSeparator(key[i + 1])
  }

  lemma {:induction false} EscapeStart(key: string)
    requires key != ""
    ensures Escape(key) != "" && (IsSeparator(Escape(key)[0]) <==> IsSeparator(key[0]))
  {
  }

  /** Scanning undoes the escape exactly on unambiguous keys. */
  lemma {:induction false} ScanUndoesEscapeExactlyWhen(key: string)
    ensures Scan(Escape(key)) == key <==> Unambiguous(key)
  {
    if key != "" {
      var rest := key[1..];
      ScanUndoesEscapeExactlyWhen(rest);
      assert key == [key[0]] + rest;
      TailUnambiguous(key);
      if key[0] == '_' {
        assert Escape(key)[2..] == Escape(rest);
      } else {
        assert Escape(key)[1..] == Escape(rest);
        if rest != "" {
          EscapeStart(rest);
        }
      }
    }
  }

  lemma TailUnambiguous(key: string)
    requires key != ""
    ensures Unambiguous(key) <==>
              Unambiguous(key[1..]) && !(key[0] == '.' && |key| > 1 && IsSeparator(key[1]))
  {
    var rest := key[1..];
    if Unambiguous(key) {
      forall i | 0 <= i < |rest| - 1 && rest[i] == '.' ensures !IsSeparator(rest[i + 1]) {
        assert key[i + 1] == '.';
      }
    }
    if Unambiguous(rest) && !(key[0] == '.' && |key| > 1 && IsSeparator(key[1])) {
      forall i | 0 <= i < |key| - 1 && key[i] == '.' ensures !IsSeparator(key[i + 1]) {
        if i > 0 {
          assert rest[i - 1] == '.';
        }
      }
    }
  }

  lemma {:induction false} ScanUpper(s: string)
    ensures Scan(Upper(s)) == Upper(Scan(s))
    decreases |s|
  {
    if s != "" {
      assert Upper(s)[1..] == Upper(s[1..]);
      if |s| >= 2 {
        assert Upper(s[1..])[1..] == Upper(s[2..]);
        assert Upper(s)[1] == UpperChar(s[1]);
        assert Upper(s)[2..] == Upper(s[2..]);
        ScanUpper(s[2..]);
      }
      ScanUpper(s[1..]);
    }
  }

  /** strings.ToLower leaves the key alone. */
  predicate IsLower(key: string, fold: char -> char) {
    forall i :: 0 <= i < |key| ==> LowerChar(key[i], fold) == key[i]
  }

  lemma {:induction false} LowerUndoesUpper(key: string, fold: char -> char)
    requires IsLower(key, fold)
    ensures Lower(Upper(key), fold) == key
  {
    if key != "" {
      LowerUndoesUpper(key[1..], fold);
      assert Upper(key)[1..] == Upper(key[1..]);
      assert key == [key[0]] + key[1..];
    }
  }

  lemma {:induction false} EscapeIsLower(key: string, fold: char -> char)
    requires IsLower(key, fold)
    ensures IsLower(Escape(key), fold) && IsLower(Scan(Escape(key)), fold)
  {
    if key != "" {
      EscapeIsLower(key[1..], fold);
    }
    ScanIsLower(Escape(key), fold);
  }

  lemma {:induction false} ScanIsLower(s: string, fold: char -> char)
    requires IsLower(s, fold)
    ensures IsLower(Scan(s), fold)
    decreases |s|
  {
    if s != "" {
      ScanIsLower(s[1..], fold);
      if |s| >= 2 {
        ScanIsLower(s[2..], fold);
      }
    }
  }

  /** Round trip: a lower-case key survives encoding and decoding exactly when it is unambiguous. */
  lemma RoundTripExactlyWhen(key: string, fold: char -> char)
    requires IsLower(key, fold)
    ensures Decode(Encode(key), fold) == key <==> Unambiguous(key)
  {
    var body := Upper(Escape(key));
    assert TrimPrefix(PREFIX + body, PREFIX) == body by {
      assert (PREFIX + body)[..|PREFIX|] == PREFIX && (PREFIX + body)[|PREFIX|..] == body;
    }
    DecodeIsScan(Encode(key), fold);
    ScanUpper(Escape(key));
    EscapeIsLower(key, fold);
    LowerUndoesUpper(Scan(Escape(key)), fold);
    ScanUndoesEscapeExactlyWhen(key);
  }

  /** For example: a doubled underscore is one of the key, a single one is a dot. */
  lemma DecodesANestedName(name: string, fold: char -> char)
    requires name == "AUTH_JWT__A_B"
    ensures Decode(name, fold) == "jwt_a.b"
  {
    assert name[..5] == "AUTH_" && name[5..] == "JWT__A_B";
    assert TrimPrefix(name, PREFIX) == "JWT__A_B";
    DecodeIsScan(name, fold);
    ScanTail();
    LowerCase("JWT_A.B", fold);
    assert Lower("JWT_A.B", fold) == "jwt_a.b";
  }

  lemma ScanTail()
    ensures Scan("JWT__A_B") == "JWT_A.B"
  {
  }

  lemma {:induction false} LowerCase(s: string, fold: char -> char)
    ensures |Lower(s, fold)| == |s| && forall i :: 0 <= i < |s| ==> Lower(s, fold)[i] == LowerChar(s[i], fold)
  {
    if s != "" {
      LowerCase(s[1..], fold);
    }
  }
}
