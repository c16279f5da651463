/**
 * Index-pattern (data view) validation, as asserted by
 * src/plugins/data/common/index_patterns/lib/validate_index_pattern.test.ts.
 * `validateDataView` maps a pattern to an error object holding a key only
 * for a check that fails: a contains-spaces flag and the list of illegal
 * characters found, in the order of the illegal-character list.
 */
module IndexPatternValidation {

  /** The two keys of the error object. */
  datatype ErrorKey = ContainsSpaces | IllegalCharacters

  /** The value stored under a key: the spaces flag, or the characters found. */
  datatype ErrorValue = Flag(flag: bool) | Chars(chars: seq<char>)

  type Errors = map<ErrorKey, ErrorValue>

  predicate NoDuplicates(s: seq<char>)
  {
    forall i, j :: 0 <= i < j < |s| ==> s[i] != s[j]
  }

  /**
   * The illegal characters that occur in `pattern`, each once, in the order
   * of the list `illegal` (which is a parameter of the model).
   */
  function IllegalCharactersIn(pattern: string, illegal: seq<char>): (found: seq<char>)
    ensures forall c :: c in found <==> c in illegal && c in pattern
    ensures found == [] <==> forall c :: c in illegal ==> c !in pattern
    ensures |found| <= |illegal|
    ensures NoDuplicates(illegal) ==> NoDuplicates(found)
  {
    if illegal == [] then []
    else
      var rest := IllegalCharactersIn(pattern, illegal[1..]);
      if illegal[0] in pattern then [illegal[0]] + rest else rest
  }

  /** `validateDataView`. */
  function ValidateDataView(pattern: string, illegal: seq<char>): (errors: Errors)
    ensures ContainsSpaces in errors <==> ' ' in pattern
    ensures ContainsSpaces in errors ==> errors[ContainsSpaces] == Flag(true)
    ensures IllegalCharacters in errors <==> exists c :: c in pattern && c in illegal
    ensures IllegalCharacters in errors ==> errors[IllegalCharacters] == Chars(IllegalCharactersIn(pattern, illegal))
  {
    var found := IllegalCharactersIn(pattern, illegal);
    var withIllegal: Errors := if |found| > 0 then map[IllegalCharacters := Chars(found)] else map[];
    if ' ' in pattern then withIllegal[ContainsSpaces := Flag(true)] else withIllegal
  }

  /** A pattern with a space, such as `my pattern`, has the contains-spaces error set. */
  lemma SpaceIsReported(pattern: string, illegal: seq<char>)
    requires ' ' in pattern
    ensures ValidateDataView(pattern, illegal)[ContainsSpaces] == Flag(true)
  {
  }

  /**
   * When `c` is the only listed character that occurs in the pattern, and
   * the list has no repeats, exactly `[c]` is found.
   */
  lemma {:induction false} OnlyIllegalCharacterFound(pattern: string, illegal: seq<char>, c: char)
    requires c in illegal && c in pattern
    requires NoDuplicates(illegal)
    requires forall d :: d in illegal && d in pattern ==> d == c
    ensures IllegalCharactersIn(pattern, illegal) == [c]
  {
    var rest := IllegalCharactersIn(pattern, illegal[1..]);
    if illegal[0] == c {
      assert forall k :: 0 < k < |illegal| ==> illegal[k] != illegal[0];
      assert c !in illegal[1..];
    } else {
      assert illegal[0] !in pattern;
      OnlyIllegalCharacterFound(pattern, illegal[1..], c);
    }
  }

  /**
   * For each illegal character `c`, `"pattern" + c` reports exactly `[c]`,
   * provided the list has no repeats and none of the letters of "pattern"
   * is illegal.
   */
  lemma TrailingIllegalCharacterReported(c: char, illegal: seq<char>)
    requires c in illegal
    requires NoDuplicates(illegal)
    requires forall d :: d in "pattern" ==> d !in illegal
    ensures ValidateDataView("pattern" + [c], illegal)[IllegalCharacters] == Chars([c])
  {
    var p := "pattern" + [c];
    assert c in p;
    assert forall d :: d in p ==> d in "pattern" || d == c;
    OnlyIllegalCharacterFound(p, illegal, c);
  }

  /**
   * The error object is empty exactly when the pattern has no space and no
   * illegal character; so a clean pattern carries neither key.
   */
  lemma CleanIffNoErrors(pattern: string, illegal: seq<char>)
    ensures ValidateDataView(pattern, illegal) == map[] <==> ' ' !in pattern && forall c :: c in pattern ==> c !in illegal
  {
    var errors := ValidateDataView(pattern, illegal);
    if ' ' !in pattern && forall c :: c in pattern ==> c !in illegal {
      assert errors.Keys == {};
    }
  }

  /**
   * `my-pattern-*` validating with an empty error object means that neither
   * `-` nor `*` (nor any of its letters) is an illegal character.
   */
  lemma MyPatternIsClean(illegal: seq<char>)
    requires ValidateDataView("my-pattern-*", illegal) == map[]
    ensures '-' !in illegal && '*' !in illegal
    ensures forall c :: c in "my-pattern-*" ==> c !in illegal
  {
    CleanIffNoErrors("my-pattern-*", illegal);
    assert '-' in "my-pattern-*" && '*' in "my-pattern-*";
  }
}
