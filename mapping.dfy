/**
 * Where the column mapping comes from when the template is bypassed and no
 * detection is available: a keyword heuristic over the lower-cased,
 * stripped headers, and a positional fallback when the heuristic finds
 * nothing. Both assign column letters generated as `chr(65 + i)`, which is
 * not limited to A..Z. Also the choice among loaded, detected and
 * heuristic mappings.
 */
module Mapping {
  import opened Text
  import opened Fields
  import opened Wrappers
  import Detection

  /** Column indices whose letter `chr(65 + i)` is a Dafny char (below the surrogates). */
  const MaxColumns: nat := 0xD800 - 65

  /** `chr(65 + i)`: "A" for column 0, "[" for column 26, "a" for column 32. */
  function Letter(i: nat): (r: string)
    requires i < MaxColumns
    ensures |r| == 1 && r[0] as int == 65 + i
  {
    [(65 + i) as char]
  }

  lemma LetterInjective(i: nat, j: nat)
    requires i < MaxColumns && j < MaxColumns
    ensures Letter(i) == Letter(j) ==> i == j
  {
    if Letter(i) == Letter(j) {
      assert Letter(i)[0] == Letter(j)[0];
    }
  }

  /** The keyword lists of the heuristic, one per field. */
  function Keywords(f: Field): seq<string> {
    match f
    case Article => ["part", "sku", "code", "article", "item", "product"]
    case BrandName => ["brand", "manufacturer", "maker", "mfg", "company"]
    case Quantity => ["quantity", "stock", "qty", "amount", "count", "available"]
    case MOQ => ["moq", "minimum", "min"]
    case MSRP => ["msrp", "list", "retail", "recommended", "suggested"]
    case Price => ["price", "cost", "unit", "selling"]
    case LeadTime => ["lead", "delivery", "time"]
  }

  /** The order of the heuristic's if/elif chain. */
  const KeywordOrder: seq<Field> := [Article, BrandName, Quantity, MOQ, MSRP, Price, LeadTime]

  /** `any(word in col for word in words)`, read from the last word back. */
  predicate Mentions(col: string, words: seq<string>)
    decreases |words|
  {
    |words| > 0 && (Mentions(col, words[..|words| - 1]) || Contains(col, words[|words| - 1]))
  }

  /** A header mentions a list exactly when one of its words is a substring. */
  lemma {:induction false} MentionsIff(col: string, words: seq<string>)
    ensures Mentions(col, words) <==> exists k :: 0 <= k < |words| && Contains(col, words[k])
    decreases |words|
  {
    if |words| > 0 {
      var front := words[..|words| - 1];
      MentionsIff(col, front);
      assert forall k :: 0 <= k < |front| ==> front[k] == words[k];
    }
  }

  /** The if/elif chain: the field a normalised header is given, if any. */
  function KeywordField(col: string): Option<Field> {
    if Mentions(col, Keywords(Article)) then Some(Article)
    else if Mentions(col, Keywords(BrandName)) then Some(BrandName)
    else if Mentions(col, Keywords(Quantity)) then Some(Quantity)
    else if Mentions(col, Keywords(MOQ)) then Some(MOQ)
    else if Mentions(col, Keywords(MSRP)) then Some(MSRP)
    else if Mentions(col, Keywords(Price)) then Some(Price)
    else if Mentions(col, Keywords(LeadTime)) then Some(LeadTime)
    else None
  }

  /** Where a field stands in the chain. */
  function ChainRank(f: Field): (k: nat)
    ensures k < |KeywordOrder| && KeywordOrder[k] == f
  {
    match f
    case Article => 0
    case BrandName => 1
    case Quantity => 2
    case MOQ => 3
    case MSRP => 4
    case Price => 5
    case LeadTime => 6
  }

  /**
   * A header is given field f exactly when it mentions one of f's keywords
   * and none of the keywords of the fields tested before f.
   */
  lemma KeywordFieldSpec(col: string, f: Field)
    ensures KeywordField(col) == Some(f) <==>
              Mentions(col, Keywords(f))
              && forall g :: g in KeywordOrder[..ChainRank(f)] ==> !Mentions(col, Keywords(g))
  {
    match f
    case Article =>
    case BrandName => assert KeywordOrder[..1] == [Article];
    case Quantity => assert KeywordOrder[..2] == [Article, BrandName];
    case MOQ => assert KeywordOrder[..3] == [Article, BrandName, Quantity];
    case MSRP => assert KeywordOrder[..4] == [Article, BrandName, Quantity, MOQ];
    case Price => assert KeywordOrder[..5] == [Article, BrandName, Quantity, MOQ, MSRP];
    case LeadTime => assert KeywordOrder[..6] == [Article, BrandName, Quantity, MOQ, MSRP, Price];
  }

  /** A header is given no field exactly when it mentions no keyword at all. */
  lemma KeywordFieldNone(col: string)
    ensures KeywordField(col).None? <==> forall g :: g in KeywordOrder ==> !Mentions(col, Keywords(g))
  {
  }

  /** The field the chain gives each column. */
  function ColumnFields(cols: seq<string>): (fs: seq<Option<Field>>)
    ensures |fs| == |cols| && forall i :: 0 <= i < |cols| ==> fs[i] == KeywordField(cols[i])
  {
    seq(|cols|, i requires 0 <= i < |cols| => KeywordField(cols[i]))
  }

  /** The map after the first n columns, given the field each column is assigned. */
  function AssignUpTo(fs: seq<Option<Field>>, n: nat): map<string, string>
    requires n <= |fs| <= MaxColumns
    decreases n
  {
    if n == 0 then map[]
    else
      var m := AssignUpTo(fs, n - 1);
      match fs[n - 1]
      case Some(f) => m[FieldName(f) := Letter(n - 1)]
      case None => m
  }

  function KeywordMap(headers: seq<string>): map<string, string>
    requires |headers| <= MaxColumns
  {
    var fs := ColumnFields(Detection.NormalizeAll(headers));
    AssignUpTo(fs, |fs|)
  }

  /** The fallback's slot for column i: A, B, D, E, F are taken; C is skipped. */
  function Slot(i: nat): Option<Field> {
    if i == 0 then Some(Article)
    else if i == 1 then Some(BrandName)
    else if i == 3 then Some(Quantity)
    else if i == 4 then Some(Price)
    else if i == 5 then Some(MSRP)
    else None
  }

  /** The slots of a table with n columns. */
  function Slots(n: nat): (fs: seq<Option<Field>>)
    ensures |fs| == n && forall i :: 0 <= i < n ==> fs[i] == Slot(i)
  {
    seq(n, i requires 0 <= i < n => Slot(i))
  }

  /** The fallback map for a table with n columns. */
  function PositionalMap(n: nat): map<string, string>
    requires n <= MaxColumns
  {
    AssignUpTo(Slots(n), n)
  }

  /** The heuristic's result: keywords, or the positions when no keyword hit. */
  function Heuristic(headers: seq<string>): map<string, string>
    requires |headers| <= MaxColumns
  {
    var m := KeywordMap(headers);
    if m == map[] then PositionalMap(|headers|) else m
  }

  /** The mapping `process_dataframe` projects with. */
  function SelectConfig(bypass: bool, autoDetect: bool, detected: map<string, string>,
                        config: map<string, string>, headers: seq<string>): map<string, string>
    requires |headers| <= MaxColumns
  {
    if !bypass then config
    else if autoDetect && detected != map[] then detected
    else Heuristic(headers)
  }

  /** `any(word in col for word in words)`, as the generator runs it. */
  method MentionsAny(col: string, words: seq<string>) returns (found: bool)
    ensures found == Mentions(col, words)
  {
    found := false;
    for w := 0 to |words|
      invariant found == Mentions(col, words[..w])
    {
      assert words[..w + 1][..w] == words[..w];
      if !found && Contains(col, words[w]) {
        found := true;
      }
    }
    assert words[..|words|] == words;
  }

  /** The if/elif chain for one column. */
  method ChainField(col: string) returns (r: Option<Field>)
    ensures r == KeywordField(col)
  {
    var found := MentionsAny(col, Keywords(Article));
    if found { return Some(Article); }
    found := MentionsAny(col, Keywords(BrandName));
    if found { return Some(BrandName); }
    found := MentionsAny(col, Keywords(Quantity));
    if found { return Some(Quantity); }
    found := MentionsAny(col, Keywords(MOQ));
    if found { return Some(MOQ); }
    found := MentionsAny(col, Keywords(MSRP));
    if found { return Some(MSRP); }
    found := MentionsAny(col, Keywords(Price));
    if found { return Some(Price); }
    found := MentionsAny(col, Keywords(LeadTime));
    if found { return Some(LeadTime); }
    return None;
  }

  /** The keyword loop over the columns. */
  method KeywordMapping(headers: seq<string>) returns (config: map<string, string>)
    requires |headers| <= MaxColumns
    ensures config == KeywordMap(headers)
  {
    var columns := Detection.NormalizeAll(headers);
    config := AssignColumns(columns);
  }

  /** The loop body of the keyword heuristic over the normalised headers. */
  method AssignColumns(columns: seq<string>) returns (config: map<string, string>)
    requires |columns| <= MaxColumns
    ensures config == AssignUpTo(ColumnFields(columns), |columns|)
  {
    ghost var fs := ColumnFields(columns);
    config := map[];
    for i := 0 to |columns|
      invariant config == AssignUpTo(fs, i)
    {
      var letter := Letter(i);
      var field := ChainField(columns[i]);
      assert field == fs[i];
      if field.Some? {
        config := config[FieldName(field.value) := letter];
      }
    }
  }

  /** The positional loop over n columns. */
  method PositionalMapping(n: nat) returns (config: map<string, string>)
    requires n <= MaxColumns
    ensures config == PositionalMap(n)
  {
    ghost var slots := Slots(n);
    config := map[];
    for i := 0 to n
      invariant config == AssignUpTo(slots, i)
    {
      var letter := Letter(i);
      if i == 0 {
        config := config["Article" := letter];
      } else if i == 1 {
        config := config["Brand Name" := letter];
      } else if i == 2 {
        continue;
      } else if i == 3 {
        config := config["Quantity" := letter];
      } else if i == 4 {
        config := config["Price" := letter];
      } else if i == 5 {
        config := config["MSRP" := letter];
      }
    }
  }

  /** The intelligent mapping: keywords, falling back to positions when they find nothing. */
  method IntelligentMapping(headers: seq<string>) returns (config: map<string, string>)
    requires |headers| <= MaxColumns
    ensures config == Heuristic(headers)
  {
    config := KeywordMapping(headers);
    if config == map[] {
      config := PositionalMapping(|headers|);
    }
  }

  // ---------------------------------------------------------------------
  // What the heuristic assigns.

  /**
   * A field is in the map exactly when some column is assigned it; its
   * letter is that of the last such column.
   */
  lemma {:induction false} AssignUpToSpec(fs: seq<Option<Field>>, n: nat, f: Field)
    requires n <= |fs| <= MaxColumns
    ensures FieldName(f) in AssignUpTo(fs, n) <==> exists i :: 0 <= i < n && fs[i] == Some(f)
    ensures FieldName(f) in AssignUpTo(fs, n) ==>
              exists i :: 0 <= i < n && fs[i] == Some(f)
                && AssignUpTo(fs, n)[FieldName(f)] == Letter(i)
                && forall i' :: i < i' < n ==> fs[i'] != Some(f)
    decreases n
  {
    if n > 0 {
      AssignUpToSpec(fs, n - 1, f);
      match fs[n - 1]
      case Some(g) =>
        FieldNameInjective(f, g);
      case None =>
    }
  }

  /** Only field names are ever keys of the map. */
  lemma {:induction false} AssignUpToKeys(fs: seq<Option<Field>>, n: nat, key: string)
    requires n <= |fs| <= MaxColumns
    requires key in AssignUpTo(fs, n)
    ensures exists f :: key == FieldName(f)
    decreases n
  {
    match fs[n - 1]
    case Some(g) =>
      if key != FieldName(g) {
        AssignUpToKeys(fs, n - 1, key);
      }
    case None =>
      AssignUpToKeys(fs, n - 1, key);
  }

  /** A column is assigned at most one field, so no letter is used twice. */
  lemma AssignedLettersDistinct(fs: seq<Option<Field>>, n: nat, f: Field, g: Field)
    requires n <= |fs| <= MaxColumns && f != g
    requires FieldName(f) in AssignUpTo(fs, n) && FieldName(g) in AssignUpTo(fs, n)
    ensures AssignUpTo(fs, n)[FieldName(f)] != AssignUpTo(fs, n)[FieldName(g)]
  {
    AssignUpToSpec(fs, n, f);
    AssignUpToSpec(fs, n, g);
    var i :| 0 <= i < n && fs[i] == Some(f) && AssignUpTo(fs, n)[FieldName(f)] == Letter(i);
    var j :| 0 <= j < n && fs[j] == Some(g) && AssignUpTo(fs, n)[FieldName(g)] == Letter(j);
    LetterInjective(i, j);
  }

  /** The map is empty exactly when no column is assigned a field. */
  lemma AssignUpToEmpty(fs: seq<Option<Field>>, n: nat)
    requires n <= |fs| <= MaxColumns
    ensures AssignUpTo(fs, n) == map[] <==> forall i :: 0 <= i < n ==> fs[i].None?
  {
    if AssignUpTo(fs, n) == map[] {
      forall i | 0 <= i < n
        ensures fs[i].None?
      {
        if fs[i].Some? {
          AssignUpToSpec(fs, n, fs[i].value);
        }
      }
    } else {
      var key :| key in AssignUpTo(fs, n);
      AssignUpToKeys(fs, n, key);
      var f :| key == FieldName(f);
      AssignUpToSpec(fs, n, f);
    }
  }

  /** The keyword map is empty exactly when no header mentions any keyword. */
  lemma KeywordMapEmpty(headers: seq<string>)
    requires |headers| <= MaxColumns
    ensures var cols := Detection.NormalizeAll(headers);
            KeywordMap(headers) == map[] <==>
              forall i :: 0 <= i < |headers| ==> KeywordField(cols[i]).None?
  {
    var fs := ColumnFields(Detection.NormalizeAll(headers));
    AssignUpToEmpty(fs, |fs|);
  }

  /**
   * The keyword map holds a field exactly when some header is given it by
   * the if/elif chain, with the letter of the last such header.
   */
  lemma KeywordMapSpec(headers: seq<string>, f: Field)
    requires |headers| <= MaxColumns
    ensures var cols := Detection.NormalizeAll(headers);
            (FieldName(f) in KeywordMap(headers) <==>
               exists i :: 0 <= i < |headers| && KeywordField(cols[i]) == Some(f))
            && (FieldName(f) in KeywordMap(headers) ==>
               exists i :: 0 <= i < |headers| && KeywordField(cols[i]) == Some(f)
                 && KeywordMap(headers)[FieldName(f)] == Letter(i)
                 && forall i' :: i < i' < |headers| ==> KeywordField(cols[i']) != Some(f))
  {
    var cols := Detection.NormalizeAll(headers);
    var fs := ColumnFields(cols);
    AssignUpToSpec(fs, |fs|, f);
    assert forall i :: 0 <= i < |fs| ==> (fs[i] == Some(f) <==> KeywordField(cols[i]) == Some(f));
  }

  /** The fallback slot of each field, read the other way round. */
  function PositionalSlot(f: Field): Option<nat> {
    match f
    case Article => Some(0)
    case BrandName => Some(1)
    case Quantity => Some(3)
    case Price => Some(4)
    case MSRP => Some(5)
    case MOQ => None
    case LeadTime => None
  }

  lemma SlotAgrees(i: nat, f: Field)
    ensures Slot(i) == Some(f) <==> PositionalSlot(f) == Some(i)
  {
  }

  /**
   * The fallback gives A to Article, B to Brand Name, D to Quantity, E to
   * Price and F to MSRP, each only when the table has that column; never
   * MOQ or Lead Time, and nothing for column C or from G on.
   */
  lemma PositionalSpec(n: nat, f: Field)
    requires n <= MaxColumns
    ensures FieldName(f) in PositionalMap(n) <==>
              PositionalSlot(f).Some? && PositionalSlot(f).value < n
    ensures FieldName(f) in PositionalMap(n) ==>
              PositionalMap(n)[FieldName(f)] == Letter(PositionalSlot(f).value)
  {
    var fs := Slots(n);
    AssignUpToSpec(fs, n, f);
    forall i | 0 <= i < n
      ensures fs[i] == Some(f) <==> PositionalSlot(f) == Some(i)
    {
      SlotAgrees(i, f);
    }
  }

  /** Only field names are keys of the fallback map. */
  lemma PositionalKeys(n: nat, key: string)
    requires n <= MaxColumns && key in PositionalMap(n)
    ensures exists f :: key == FieldName(f)
  {
    AssignUpToKeys(Slots(n), n, key);
  }

  /** The fallback map is empty only for a table without columns. */
  lemma PositionalEmptyIff(n: nat)
    requires n <= MaxColumns
    ensures PositionalMap(n) == map[] <==> n == 0
  {
    if n > 0 {
      PositionalSpec(n, Article);
      assert FieldName(Article) in PositionalMap(n);
    }
  }

  // ---------------------------------------------------------------------
  // Which mapping is used.

  /** With the template bypassed, the loaded or identity configuration plays no part. */
  lemma BypassIgnoresConfig(autoDetect: bool, detected: map<string, string>,
                            c1: map<string, string>, c2: map<string, string>, headers: seq<string>)
    requires |headers| <= MaxColumns
    ensures SelectConfig(true, autoDetect, detected, c1, headers)
         == SelectConfig(true, autoDetect, detected, c2, headers)
  {
  }

  /**
   * The heuristic falls back to positions exactly when no header mentions
   * any keyword of the chain.
   */
  lemma HeuristicFallback(headers: seq<string>)
    requires |headers| <= MaxColumns
    ensures Heuristic(headers)
         == if forall i :: 0 <= i < |headers| ==> KeywordField(Detection.NormalizeAll(headers)[i]).None?
            then PositionalMap(|headers|) else KeywordMap(headers)
  {
    KeywordMapEmpty(headers);
  }

}
