/**
 * The file-type check applied to the key of an uploaded S3 object before it
 * is fetched: the type is whatever follows the last `.` of the key, and only
 * `csv` (in any letter case) is accepted.
 */
module S3Key {
  import opened Wrappers

  const NoTypeMessage: string := "Could not determine the csv type."
  const UnsupportedMessage: string := "Unsupported file type"

  /** `toLowerCase` restricted to ASCII letters. */
  function LowerChar(c: char): char
  {
    if 'A' <= c <= 'Z' then (c as int - 'A' as int + 'a' as int) as char else c
  }

  function Lower(s: string): (r: string)
    ensures |r| == |s|
    ensures forall i :: 0 <= i < |s| ==> r[i] == LowerChar(s[i])
  {
    if s == [] then [] else [LowerChar(s[0])] + Lower(s[1..])
  }

  /**
   * The group captured by `/\.([^.]*)$/`: the text after the last `.`, or
   * `None` when the key has no `.` at all.
   */
  function Extension(key: string): (e: Option<string>)
    ensures e.None? <==> '.' !in key
    ensures e.Some? ==>
              && |e.value| < |key| && key[|key| - |e.value| - 1] == '.'
              && key[|key| - |e.value|..] == e.value && '.' !in e.value
  {
    if key == [] then None
    else if key[|key| - 1] == '.' then Some("")
    else match Extension(key[..|key| - 1])
      case None => None
      case Some(e) =>
        assert key == key[..|key| - 1] + [key[|key| - 1]];
        Some(e + [key[|key| - 1]])
  }

  /**
   * The suffix check of `getCsvDataFromS3Event`: either the lower-cased type
   * `"csv"` or the message thrown.
   */
  function CsvType(key: string): (r: Result<string, string>)
    ensures r.Success? ==> r.value == "csv"
    ensures r.Failure? ==> r.error == NoTypeMessage || r.error == UnsupportedMessage
    ensures r.Failure? && r.error == NoTypeMessage <==> '.' !in key
  {
    match Extension(key)
    case None => Failure(NoTypeMessage)
    case Some(ext) =>
      var csvType := Lower(ext);
      if csvType != "csv" then Failure(UnsupportedMessage) else Success(csvType)
  }

  /** No `.` in the key: the type cannot be determined. */
  lemma NoDotRejected(key: string)
    ensures CsvType(key) == Failure(NoTypeMessage) <==> '.' !in key
  {
  }

  /**
   * A key is accepted exactly when it ends in `.` followed by three letters
   * spelling `csv` in some letter case; every other key with a `.`, including
   * one that ends in `.`, is an unsupported type.
   */
  lemma CsvAccepted(key: string)
    ensures CsvType(key).Success? <==>
      |key| >= 4 && key[|key| - 4] == '.' && Lower(key[|key| - 3..]) == "csv"
    ensures CsvType(key).Success? ==> CsvType(key).value == "csv"
    ensures '.' in key && !CsvType(key).Success? ==> CsvType(key) == Failure(UnsupportedMessage)
  {
    if |key| >= 4 && key[|key| - 4] == '.' && Lower(key[|key| - 3..]) == "csv" {
      var tail := key[|key| - 3..];
      assert '.' !in tail by {
        forall i | 0 <= i < 3 ensures tail[i] != '.' {
          assert LowerChar(tail[i]) == "csv"[i];
        }
      }
      assert '.' in key by { assert key[|key| - 4] == '.'; }
      var e := Extension(key).value;
      ExtensionIsLastDot(key, e, |key| - 4);
    }
  }

  /** Helper: the extension starts after the last `.`, so a `.` at `p` followed by no other `.` marks it. */
  lemma ExtensionIsLastDot(key: string, e: string, p: nat)
    requires p < |key| && key[p] == '.' && '.' !in key[p + 1..]
    requires Extension(key) == Some(e)
    ensures e == key[p + 1..]
  {
  }

  /** A key ending in `.` has the empty type, which is unsupported. */
  lemma TrailingDotUnsupported(key: string)
    requires key != [] && key[|key| - 1] == '.'
    ensures CsvType(key) == Failure(UnsupportedMessage)
  {
  }
}
