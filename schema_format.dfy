/** The attribute-name formatter the validator uses in its messages. */
module SchemaFormat {
  import opened Wrappers
  import opened Text

  /**
   * A name ending in `_id` loses its first `_id`; otherwise a dotted name
   * becomes `<child> of <parent>` from its first two segments; any other name
   * has its underscores turned into spaces.
   */
  function FormatAttribute(attribute: string): string
  {
    if EndsWith(attribute, "_id") then ReplaceFirst(attribute, "_id", "")
    else if '.' in attribute then
      var parent := UpToFirst(attribute, '.');
      var child := UpToFirst(attribute[|parent| + 1..], '.');
      ReplaceAll(child, '_', ' ') + " of " + ReplaceAll(parent, '_', ' ')
    else ReplaceAll(attribute, '_', ' ')
  }

  /** When no `_i` comes before the trailing `_id`, exactly that suffix goes. */
  lemma IdSuffixRemoved(a: string)
    requires EndsWith(a, "_id")
    requires forall j :: 0 <= j < |a| - 3 ==> !(a[j] == '_' && a[j + 1] == 'i')
    ensures FormatAttribute(a) == a[..|a| - 3]
  {
    var n := |a| - 3;
    assert OccursAt(a, "_id", n);
    forall j | 0 <= j < n ensures !OccursAt(a, "_id", j) {
      assert a[j..j + 3][0] == a[j] && a[j..j + 3][1] == a[j + 1];
    }
    assert a[..n] + "" + a[|a|..] == a[..n];
  }

  lemma IdExamples()
    ensures FormatAttribute("user_id") == "user"
    ensures FormatAttribute("created_by_id") == "created_by"
  {
    IdSuffixRemoved("user_id");
    IdSuffixRemoved("created_by_id");
  }

  /** It is the first `_id` that goes, not the suffix: "user_identity_id" keeps its last `_id`. */
  lemma FirstIdOccurrenceRemoved()
    ensures FormatAttribute("user_identity_id") == "userentity_id"
  {
    var a := "user_identity_id";
    assert a[4..7] == "_id";
    FirstOccurrence(a, "_id", 4);
  }

  /** The `_id` rule wins over the dotted rule. */
  lemma IdRuleBeforeDottedRule()
    ensures FormatAttribute("post.author_id") == "post.author"
  {
    IdSuffixRemoved("post.author_id");
  }

  /** The dotted rule reads `<child> of <parent>` and leaves no underscore. */
  lemma DottedForm(a: string)
    requires !EndsWith(a, "_id") && '.' in a
    ensures var parent := UpToFirst(a, '.');
            var child := UpToFirst(a[|parent| + 1..], '.');
            FormatAttribute(a) == ReplaceAll(child, '_', ' ') + " of " + ReplaceAll(parent, '_', ' ')
    ensures '_' !in FormatAttribute(a)
  {
    assert '_' !in " of ";
  }

  /** Any other name has every underscore turned into a space. */
  lemma DefaultForm(a: string)
    requires !EndsWith(a, "_id") && '.' !in a
    ensures FormatAttribute(a) == ReplaceAll(a, '_', ' ')
    ensures '_' !in FormatAttribute(a)
    ensures |FormatAttribute(a)| == |a|
  {
  }
}
