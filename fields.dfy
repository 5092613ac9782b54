/**
 * The seven template fields of the price-list format and the header
 * lexicon the detector matches them by. A lexicon entry is a regular
 * expression built only from literal text and `\s*`, so it is stored as
 * its literal segments; `Raw` gives back the expression's own text, which
 * is what the similarity score is computed against.
 */
module Fields {
  import opened Text

  datatype Field = LeadTime | BrandName | Article | Quantity | MOQ | MSRP | Price

  /** The template's column order; also the order the lexicon lists the fields in. */
  const FieldOrder: seq<Field> := [LeadTime, BrandName, Article, Quantity, MOQ, MSRP, Price]

  /** The six fields written to every output row, in output order. */
  const DataFields: seq<Field> := [BrandName, Article, Quantity, MOQ, MSRP, Price]

  /** The key a configuration uses for the field. */
  function FieldName(f: Field): string {
    match f
    case LeadTime => "Lead Time"
    case BrandName => "Brand Name"
    case Article => "Article"
    case Quantity => "Quantity"
    case MOQ => "MOQ"
    case MSRP => "MSRP"
    case Price => "Price"
  }

  lemma FieldNameInjective(f: Field, g: Field)
    ensures FieldName(f) == FieldName(g) ==> f == g
  {
  }

  /** Every field stands at exactly one place of FieldOrder. */
  function Position(f: Field): (k: nat)
    ensures k < |FieldOrder| && FieldOrder[k] == f
    ensures forall j :: 0 <= j < |FieldOrder| && FieldOrder[j] == f ==> j == k
  {
    match f
    case LeadTime => 0
    case BrandName => 1
    case Article => 2
    case Quantity => 3
    case MOQ => 4
    case MSRP => 5
    case Price => 6
  }

  type Segment = s: string | |s| > 0 witness "_"

  /** Literal segments separated by `\s*`; at least one segment. */
  type Pattern = p: seq<Segment> | |p| > 0 witness ["_"]

  function Interleave(segs: seq<Segment>): string
    decreases |segs|
  {
    if |segs| == 0 then "" else "\\s*" + segs[0] + Interleave(segs[1..])
  }

  /** The regular expression as written in the lexicon, backslash included. */
  function Raw(p: Pattern): (r: string)
    ensures |r| >= |p[0]| && r[..|p[0]|] == p[0]
  {
    p[0] + Interleave(p[1..])
  }

  /**
   * `re.search` anchored at position i: the first segment occurs at i, then
   * after any run of whitespace the rest of the pattern matches.
   */
  predicate MatchAt(p: seq<Segment>, s: string, i: nat)
    requires i <= |s|
    decreases |p|, 0
  {
    if |p| == 0 then true
    else
      var e := i + |p[0]|;
      e <= |s| && s[i..e] == p[0] && (|p| == 1 || SkipThenMatch(p[1..], s, e))
  }

  /** `\s*` followed by the rest: a whitespace run of any length, then a match. */
  predicate SkipThenMatch(p: seq<Segment>, s: string, k: nat)
    requires k <= |s|
    decreases |p|, |s| - k + 1
  {
    MatchAt(p, s, k) || (k < |s| && IsSpace(s[k]) && SkipThenMatch(p, s, k + 1))
  }

  predicate SearchFrom(p: Pattern, s: string, i: nat)
    requires i <= |s|
    decreases |s| - i
  {
    MatchAt(p, s, i) || (i < |s| && SearchFrom(p, s, i + 1))
  }

  /** `re.search(pattern, s)` succeeds. */
  predicate Search(p: Pattern, s: string) {
    SearchFrom(p, s, 0)
  }

  /** A pattern can only be found in a non-empty string. */
  lemma {:induction false} SearchNonEmpty(p: Pattern, s: string, i: nat)
    requires i <= |s| && SearchFrom(p, s, i)
    ensures |s| > 0
    decreases |s| - i
  {
    if !MatchAt(p, s, i) {
      SearchNonEmpty(p, s, i + 1);
    }
  }

  /** A match at position i fits the first segment after i. */
  lemma MatchAtFits(p: seq<Segment>, s: string, i: nat)
    requires |p| > 0 && i <= |s| && MatchAt(p, s, i)
    ensures i + |p[0]| <= |s|
  {
  }

  /** A pattern is only found in a string at least as long as its first segment. */
  lemma {:induction false} SearchFromFits(p: Pattern, s: string, i: nat)
    requires i <= |s| && SearchFrom(p, s, i)
    ensures |p[0]| <= |s|
    decreases |s| - i
  {
    if MatchAt(p, s, i) {
      MatchAtFits(p, s, i);
    } else {
      SearchFromFits(p, s, i + 1);
    }
  }

  /** Every entry of the lexicon starts with a literal of two or more characters. */
  lemma LexiconSegmentsLong(f: Field, k: nat)
    requires k < |Patterns(f)|
    ensures |Patterns(f)[k][0]| >= 2
  {
    match f
    case LeadTime =>
    case BrandName =>
    case Article =>
    case Quantity =>
    case MOQ =>
    case MSRP =>
    case Price =>
  }

  /** So the lexicon only finds headers of two or more characters. */
  lemma FoundHeadersLong(f: Field, k: nat, s: string)
    requires k < |Patterns(f)| && Search(Patterns(f)[k], s)
    ensures |s| >= 2
  {
    LexiconSegmentsLong(f, k);
    SearchFromFits(Patterns(f)[k], s, 0);
  }

  /** A one-segment pattern is found in its own text. */
  lemma LiteralFoundInItself(w: Segment)
    ensures Search([w], w)
  {
    assert w[0..|w|] == w;
    assert MatchAt([w], w, 0);
  }

  /** The detector's lexicon, per field, in the order it is scanned. */
  function Patterns(f: Field): seq<Pattern> {
    match f
    case LeadTime => LeadTimePatterns
    case BrandName => BrandNamePatterns
    case Article => ArticlePatterns
    case Quantity => QuantityPatterns
    case MOQ => MOQPatterns
    case MSRP => MSRPPatterns
    case Price => PricePatterns
  }

  const LeadTimePatterns: seq<Pattern> := [
    ["lead", "time"], ["delivery", "time"], ["delivery"], ["lead"], ["time"],
    ["срок", "поставки"], ["время", "доставки"], ["поставка"]]

  const BrandNamePatterns: seq<Pattern> := [
    ["brand"], ["manufacturer"], ["maker"], ["producer"], ["company"], ["mfg"],
    ["бренд"], ["производитель"], ["марка"], ["фирма"]]

  const ArticlePatterns: seq<Pattern> := [
    ["article"], ["part", "number"], ["part", "no"], ["sku"], ["code"], ["item", "number"],
    ["product", "code"], ["model"], ["артикул"], ["номер", "детали"], ["код"], ["товар"]]

  const QuantityPatterns: seq<Pattern> := [
    ["quantity"], ["stock"], ["qty"], ["amount"], ["count"], ["available"],
    ["avl", "qty"], ["in", "stock"], ["количество"], ["запас"], ["остаток"], ["шт"]]

  const MOQPatterns: seq<Pattern> := [
    ["moq"], ["minimum", "order"], ["min", "order"], ["min", "qty"], ["min", "quantity"],
    ["мин", "заказ"], ["минимальный", "заказ"], ["мин", "количество"]]

  const MSRPPatterns: seq<Pattern> := [
    ["msrp"], ["list", "price"], ["retail", "price"], ["rrp"], ["price", "list"],
    ["suggested", "price"], ["recommended", "price"], ["total", "price"],
    ["розничная", "цена"], ["список", "цен"], ["рекомендуемая", "цена"]]

  const PricePatterns: seq<Pattern> := [
    ["price"], ["cost"], ["sale", "price"], ["selling", "price"], ["unit", "price"],
    ["unit", "cost"], ["wholesale", "price"], ["цена"], ["стоимость"], ["продажная", "цена"]]

  /** How a two-segment entry reads in the lexicon. */
  lemma RawShowsWhitespaceClass()
    ensures Raw(Patterns(LeadTime)[0]) == "lead\\s*time"
    ensures Raw(Patterns(Article)[1]) == "part\\s*number"
  {
  }
}
