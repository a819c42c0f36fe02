/** The form of a public model alias. */
module ModelAlias {

  predicate AliasChar(c: char) {
    'A' <= c <= 'Z' || 'a' <= c <= 'z' || '0' <= c <= '9'
  }

  predicate ValidAlias(id: string) {
    && 1 <= |id| <= 128 && AliasChar(id[0])
    && forall c <- id :: AliasChar(c) || c in "._:-"
  }

  ghost predicate AsciiAlphanumeric(c: char) {
    || c in {'a', 'b', 'c', 'd', 'e', 'f', 'g', 'h', 'i', 'j', 'k', 'l', 'm', 'n', 'o', 'p', 'q', 'r', 's', 't', 'u', 'v', 'w', 'x', 'y', 'z'}
    || c in {'A', 'B', 'C', 'D', 'E', 'F', 'G', 'H', 'I', 'J', 'K', 'L', 'M', 'N', 'O', 'P', 'Q', 'R', 'S', 'T', 'U', 'V', 'W', 'X', 'Y', 'Z'}
    || c in {'0', '1', '2', '3', '4', '5', '6', '7', '8', '9'}
  }

  lemma AliasCharIs(c: char)
    ensures AliasChar(c) <==> AsciiAlphanumeric(c)
  {
  }

  /** An alias is 1 to 128 letters, digits, dots, underscores, colons and hyphens, the first of them a letter or digit. */
  lemma ValidAliasIs(id: string)
    ensures ValidAlias(id) <==>
            && 0 < |id| < 129 && AsciiAlphanumeric(id[0])
            && forall k | 0 <= k < |id| :: AsciiAlphanumeric(id[k]) || id[k] in {'.', '_', ':', '-'}
  {
    hide AliasChar, AsciiAlphanumeric;
    forall k | 0 <= k < |id|
      ensures AliasChar(id[k]) <==> AsciiAlphanumeric(id[k])
      ensures id[k] in id && (id[k] in "._:-" <==> id[k] in {'.', '_', ':', '-'})
    {
      AliasCharIs(id[k]);
    }
  }
}
