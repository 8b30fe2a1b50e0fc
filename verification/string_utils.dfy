/** util/string_utils.py: the older copy of the case-conversion helpers.
    Its camel case, upper snake case and line numbering are the same code as
    in util/utility_tool.py and are modelled by the UtilityTool members; only
    its Pascal case differs. */
module StringUtils {

  import opened Text
  import UtilityTool

  /** convert_to_pascal_case of string_utils: a string without '_' is returned
      unchanged; otherwise the segments are capitalized and concatenated. */
  function PascalCase(s: string): (r: string)
    ensures '_' !in s ==> r == s
    ensures '_' in s ==> '_' !in r
  {
    if '_' !in s then s
    else
      UtilityTool.PascalCaseDropsUnderscores(s);
      UtilityTool.PascalCase(s)
  }

  /** The two Pascal-case helpers disagree exactly on a non-empty string
      without '_' whose first character is a lower-case letter. */
  lemma {:induction false} PascalCaseVariantsDiffer(s: string)
    ensures PascalCase(s) != UtilityTool.PascalCase(s) <==> ('_' !in s && s != [] && IsLowerAscii(s[0]))
  {
    if '_' !in s && s != [] {
      var u := UtilityTool.PascalCase(s);
      assert u[0] == ToUpper(s[0]);
      if IsLowerAscii(s[0]) {
        assert u[0] != s[0];
      } else {
        assert s == [s[0]] + s[1..];
      }
    }
  }
}
