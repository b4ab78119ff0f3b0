/**
 * Shared helpers: the id source, email sanitising, the validator error
 * flattening and the schema validation wrapper.
 */
module Helper {
  import opened Wrappers
  import opened Text
  import opened Errors
  import opened Foreign

  /** The error raised when an email address normalises to nothing. */
  const InvalidEmail: Error := SchemaValidation([ParamError("Email address is invalid.", "email")])

  /** `getSanitizedEmail`: normalise the lower-cased, trimmed address; `None` when that fails. */
  function GetSanitizedEmail(email: string, lib: Libraries): (r: Option<string>)
    ensures r.None? <==> lib.normalizeEmail(Trim(Lower(email))) == ""
    ensures r.Some? ==> r.value == lib.normalizeEmail(Trim(Lower(email)))
  {
    var normalized := lib.normalizeEmail(Trim(Lower(email)));
    if normalized == "" then None else Some(normalized)
  }

  /** The result depends only on the lower-cased, trimmed address. */
  lemma SanitizedEmailDependsOnNormalForm(a: string, b: string, lib: Libraries)
    requires Lower(Trim(a)) == Lower(Trim(b))
    ensures GetSanitizedEmail(a, lib) == GetSanitizedEmail(b, lib)
  {
    TrimLowerCommute(a);
    TrimLowerCommute(b);
  }

  /** Whitespace around the address is ignored. */
  lemma SanitizedEmailIgnoresPadding(w1: string, e: string, w2: string, lib: Libraries)
    requires AllWhitespace(w1) && AllWhitespace(w2)
    ensures GetSanitizedEmail(w1 + e + w2, lib) == GetSanitizedEmail(e, lib)
  {
    LowerConcat(w1 + e, w2);
    LowerConcat(w1, e);
    LowerKeepsWhitespace(w1);
    LowerKeepsWhitespace(w2);
    TrimIgnoresPadding(Lower(w1), Lower(e), Lower(w2));
  }

  /** The entries one field contributes: one per message, in message order. */
  function FieldEntries(key: string, messages: seq<string>): (r: seq<ParamError>)
    ensures |r| == |messages|
    ensures forall k :: 0 <= k < |r| ==> r[k] == ParamError(messages[k], key)
  {
    seq(|messages|, k requires 0 <= k < |messages| => ParamError(messages[k], key))
  }

  /** The flattened report: fields in order, and each field's messages in order. */
  function ParamsOf(bag: ErrorBag): seq<ParamError>
  {
    if bag == [] then [] else ParamsOf(bag[..|bag| - 1]) + FieldEntries(bag[|bag| - 1].0, bag[|bag| - 1].1)
  }

  /** The number of messages in a report. */
  function MessageCount(bag: ErrorBag): nat
  {
    if bag == [] then 0 else MessageCount(bag[..|bag| - 1]) + |bag[|bag| - 1].1|
  }

  /** `errorsToParam`: push one `{message, param}` per message, field by field. */
  method ErrorsToParam(bag: ErrorBag) returns (errors: seq<ParamError>)
    ensures errors == ParamsOf(bag)
  {
    errors := [];
    var i := 0;
    while i < |bag|
      invariant 0 <= i <= |bag|
      invariant errors == ParamsOf(bag[..i])
    {
      var key := bag[i].0;
      var messages := bag[i].1;
      var j := 0;
      while j < |messages|
        invariant 0 <= j <= |messages|
        invariant errors == ParamsOf(bag[..i]) + FieldEntries(key, messages[..j])
      {
        assert FieldEntries(key, messages[..j + 1]) == FieldEntries(key, messages[..j]) + [ParamError(messages[j], key)];
        errors := errors + [ParamError(messages[j], key)];
        j := j + 1;
      }
      assert messages[..j] == messages;
      assert bag[..i + 1][..i] == bag[..i];
      i := i + 1;
    }
    assert bag[..i] == bag;
  }

  /** One entry per message: the length is the total message count. */
  lemma {:induction false} ParamsLength(bag: ErrorBag)
    ensures |ParamsOf(bag)| == MessageCount(bag)
    decreases |bag|
  {
    if bag != [] {
      ParamsLength(bag[..|bag| - 1]);
    }
  }

  /** An entry is produced exactly for a message listed under its field. */
  lemma {:induction false} ParamsMembership(bag: ErrorBag, p: ParamError)
    ensures p in ParamsOf(bag) <==>
      exists i, j :: 0 <= i < |bag| && 0 <= j < |bag[i].1| && p == ParamError(bag[i].1[j], bag[i].0)
    decreases |bag|
  {
    if bag != [] {
      var front := bag[..|bag| - 1];
      var last := bag[|bag| - 1];
      ParamsMembership(front, p);
      if p in FieldEntries(last.0, last.1) {
        var k :| 0 <= k < |last.1| && FieldEntries(last.0, last.1)[k] == p;
        assert p == ParamError(bag[|bag| - 1].1[k], bag[|bag| - 1].0);
      }
      if exists i, j :: 0 <= i < |bag| && 0 <= j < |bag[i].1| && p == ParamError(bag[i].1[j], bag[i].0) {
        var i, j :| 0 <= i < |bag| && 0 <= j < |bag[i].1| && p == ParamError(bag[i].1[j], bag[i].0);
        if i < |bag| - 1 {
          assert front[i] == bag[i];
        } else {
          assert FieldEntries(last.0, last.1)[j] == p;
        }
      }
    }
  }

  /** `items` with every occurrence of `x` filtered out, in order. */
  function Without(items: seq<string>, x: string): (r: seq<string>)
    ensures x !in r
    ensures forall y :: y in r <==> y in items && y != x
    ensures |r| <= |items|
  {
    if items == [] then []
    else if items[0] == x then Without(items[1..], x)
    else [items[0]] + Without(items[1..], x)
  }

  /** Update mode for one rule: a list loses its `required` items; a string rule is kept as is. */
  function StripRequired(rule: Rule): (r: Rule)
    ensures rule.Pipe? ==> r == rule
    ensures rule.Items? ==> r.Items? && "required" !in r.items
    ensures rule.Items? ==> forall y :: y in r.items <==> y in rule.items && y != "required"
  {
    match rule
    case Pipe(_) => rule
    case Items(items) => Items(Without(items, "required"))
  }

  /** The rules actually applied: in update mode every rule is stripped. */
  function AppliedRules(rules: Rules, update: bool): (r: Rules)
    ensures r.Keys == rules.Keys
    ensures forall k :: k in rules ==> r[k] == if update then StripRequired(rules[k]) else rules[k]
  {
    if update then map k | k in rules :: StripRequired(rules[k]) else rules
  }

  /** `isValidSchema`'s options; absent fields are `None`. */
  datatype ValidateOptions = ValidateOptions(halt: Option<bool>, update: Option<bool>)

  const NoOptions: ValidateOptions := ValidateOptions(None, None)

  /** What validation yields: a thrown error, a returned list, or nothing. */
  function ValidationOutcome(bag: ErrorBag, halt: bool): (r: Result<Option<seq<ParamError>>>)
    ensures r.Failure? <==> bag != [] && halt
    ensures r.Failure? ==> r.error == SchemaValidation(ParamsOf(bag))
    ensures r.Success? && bag != [] ==> r.value == Some(ParamsOf(bag))
    ensures bag == [] ==> r == Success(None)
  {
    if bag == [] then Success(None)
    else if halt then Failure(SchemaValidation(ParamsOf(bag)))
    else Success(Some(ParamsOf(bag)))
  }

  /**
   * `isValidSchema`: `halt` defaults to true and `update` to false; in update
   * mode each list rule loses `required`; a failing document throws (halt) or
   * returns its errors; a passing one returns nothing.
   */
  method IsValidSchema(document: Document, rules: Rules, options: ValidateOptions, lib: Libraries)
    returns (r: Result<Option<seq<ParamError>>>)
    ensures r == ValidationOutcome(
      lib.validate(document, AppliedRules(rules, options.update.GetOr(false))), options.halt.GetOr(true))
  {
    var halt := options.halt;
    if halt.None? {
      halt := Some(true);
    }
    var update := options.update;
    if update.None? {
      update := Some(false);
    }
    var applied := rules;
    if update.value {
      var keys := rules.Keys;
      var done: set<string> := {};
      while keys != {}
        invariant keys !! done && keys + done == rules.Keys
        invariant applied.Keys == rules.Keys
        invariant forall k :: k in done ==> applied[k] == StripRequired(rules[k])
        invariant forall k :: k in keys ==> applied[k] == rules[k]
        decreases keys
      {
        var k :| k in keys;
        var rule := applied[k];
        if rule.Items? {
          applied := applied[k := Items(Without(rule.items, "required"))];
        }
        keys := keys - {k};
        done := done + {k};
      }
      assert applied == AppliedRules(rules, true);
    }
    var bag := lib.validate(document, applied);
    if bag != [] {
      var params := ErrorsToParam(bag);
      if halt.value {
        r := Failure(SchemaValidation(params));
      } else {
        r := Success(Some(params));
      }
    } else {
      r := Success(None);
    }
  }

  /** Update mode never leaves a `required` item in a list rule, and never touches a string rule. */
  lemma UpdateModeStripsRequired(rules: Rules, k: string)
    requires k in rules
    ensures rules[k].Items? ==> "required" !in AppliedRules(rules, true)[k].items
    ensures rules[k].Pipe? ==> AppliedRules(rules, true)[k] == rules[k]
    ensures AppliedRules(rules, false) == rules
  {
  }
}
