/**
 * The product catalogue's model-level validation: `Product.clean`, which
 * normalises a product's name and description in place, checks its price and
 * quantity, and refuses a product when another product of the same category
 * has a collapsed, case-folded name and description equal to this one's.
 *
 * Prices are integer cents (the field has two decimal places and a minimum of
 * 0.01, so "greater than 0" and "at least one cent" coincide). The rows the
 * duplicate query reads are passed in as a sequence.
 */
module Catalog {
  import opened Wrappers
  import opened Text

  /** A saved product as the duplicate query reads it. */
  datatype StoredProduct = StoredProduct(
    pk: int,
    category: string,
    name: Option<string>,
    description: Option<string>)

  /** The value of the fields of a `Product` instance that `clean` reads or writes. */
  datatype ProductFields = ProductFields(
    pk: Option<int>,
    name: Option<string>,
    description: Option<string>,
    price: Option<int>,
    quantity: Option<int>,
    category: string)

  /** The form fields a validation error is reported on. */
  datatype Field = NameField | DescriptionField | PriceField | QuantityField

  /** The `ValidationError`s `clean` raises, one per `raise` site. */
  datatype CleanError =
    | NameRequired
    | PriceRequired
    | PriceNotPositive
    | QuantityRequired
    | QuantityNegative
    | DuplicateProduct

  /** The fields the error dictionary carries a message for. */
  function ErrorFields(e: CleanError): (fs: set<Field>)
    ensures |fs| == (if e == DuplicateProduct then 2 else 1)
    ensures DescriptionField in fs <==> e == DuplicateProduct
    ensures NameField in fs <==> e == NameRequired || e == DuplicateProduct
    ensures PriceField in fs <==> e == PriceRequired || e == PriceNotPositive
    ensures QuantityField in fs <==> e == QuantityRequired || e == QuantityNegative
  {
    match e
    case NameRequired => {NameField}
    case PriceRequired | PriceNotPositive => {PriceField}
    case QuantityRequired | QuantityNegative => {QuantityField}
    case DuplicateProduct => {NameField, DescriptionField}
  }

  /** The message shown on each field of the error. */
  function Message(e: CleanError): string
  {
    match e
    case NameRequired => "Product name is required."
    case PriceRequired => "Price is required."
    case PriceNotPositive => "Price must be greater than 0."
    case QuantityRequired => "Quantity is required."
    case QuantityNegative => "Quantity cannot be negative."
    case DuplicateProduct => "A product with this name, description, and category already exists."
  }

  /** The comparison key of a name or description: collapsed, then case-folded. */
  function Key(s: Option<string>): string
  {
    CaseFold(Collapse(OrEmpty(s)))
  }

  /**
   * Two values have the same key exactly when their collapsed forms have the
   * same length and agree position by position up to ASCII letter case.
   */
  lemma SameKeyIff(a: Option<string>, b: Option<string>)
    ensures var x, y := Collapse(OrEmpty(a)), Collapse(OrEmpty(b));
      Key(a) == Key(b) <==>
        |x| == |y| && forall i :: 0 <= i < |x| ==> FoldChar(x[i]) == FoldChar(y[i])
  {
    CaseFoldEqualIff(Collapse(OrEmpty(a)), Collapse(OrEmpty(b)));
  }

  /** Python truthiness of the primary key (`if self.pk:`): set and non-zero. */
  predicate PkIsSet(pk: Option<int>)
  {
    pk.Some? && pk.value != 0
  }

  /** The row is the product itself, which the query excludes when the product has a pk. */
  predicate IsSelf(p: ProductFields, e: StoredProduct)
  {
    PkIsSet(p.pk) && e.pk == p.pk.value
  }

  /** The rows the duplicate query yields, in order. */
  function Candidates(p: ProductFields, rows: seq<StoredProduct>): seq<StoredProduct>
  {
    if rows == [] then []
    else if rows[0].category == p.category && !IsSelf(p, rows[0]) then [rows[0]] + Candidates(p, rows[1..])
    else Candidates(p, rows[1..])
  }

  /**
   * The query keeps exactly the rows of the product's category, less the
   * product's own row when it has a primary key.
   */
  lemma {:induction false} CandidatesAreTheQuery(p: ProductFields, rows: seq<StoredProduct>)
    ensures forall e :: e in Candidates(p, rows) <==>
      e in rows && e.category == p.category && !IsSelf(p, e)
  {
    if rows != [] {
      CandidatesAreTheQuery(p, rows[1..]);
      assert forall x :: x in rows <==> x == rows[0] || x in rows[1..];
    }
  }

  predicate KeysMatch(e: StoredProduct, nameKey: string, descriptionKey: string)
  {
    Key(e.name) == nameKey && Key(e.description) == descriptionKey
  }

  /** `e` is a different product of the same category with the same keys. */
  predicate Conflicts(p: ProductFields, e: StoredProduct)
  {
    && e.category == p.category
    && !IsSelf(p, e)
    && KeysMatch(e, Key(p.name), Key(p.description))
  }

  /** Some row conflicts with `p`. */
  predicate HasDuplicate(p: ProductFields, rows: seq<StoredProduct>)
  {
    rows != [] && (Conflicts(p, rows[0]) || HasDuplicate(p, rows[1..]))
  }

  lemma {:induction false} HasDuplicateIff(p: ProductFields, rows: seq<StoredProduct>)
    ensures HasDuplicate(p, rows) <==> exists e :: e in rows && Conflicts(p, e)
  {
    if rows != [] {
      HasDuplicateIff(p, rows[1..]);
      assert forall x :: x in rows <==> x == rows[0] || x in rows[1..];
    }
  }

  /** Which check of `clean` fails first, if any. */
  function CleanOutcome(p: ProductFields, rows: seq<StoredProduct>): Option<CleanError>
  {
    if Collapse(OrEmpty(p.name)) == "" then Some(NameRequired)
    else if p.price.None? then Some(PriceRequired)
    else if p.price.value <= 0 then Some(PriceNotPositive)
    else if p.quantity.None? then Some(QuantityRequired)
    else if p.quantity.value < 0 then Some(QuantityNegative)
    else if HasDuplicate(p, rows) then Some(DuplicateProduct)
    else None
  }

  /**
   * The fields after `clean`, whatever its outcome: once the name check has
   * passed, the name is stored collapsed and the description stripped.
   */
  function AfterClean(p: ProductFields): ProductFields
  {
    var normalizedName := Collapse(OrEmpty(p.name));
    if normalizedName == "" then p
    else p.(name := Some(normalizedName), description := Some(Strip(OrEmpty(p.description))))
  }

  /** Some row among `candidates` carries the given keys. */
  predicate AnyKeysMatch(candidates: seq<StoredProduct>, nameKey: string, descriptionKey: string)
  {
    candidates != [] &&
    (KeysMatch(candidates[0], nameKey, descriptionKey) || AnyKeysMatch(candidates[1..], nameKey, descriptionKey))
  }

  lemma {:induction false} AnyKeysMatchIff(candidates: seq<StoredProduct>, nameKey: string, descriptionKey: string)
    ensures AnyKeysMatch(candidates, nameKey, descriptionKey) <==>
      exists j :: 0 <= j < |candidates| && KeysMatch(candidates[j], nameKey, descriptionKey)
  {
    if candidates != [] {
      var rest := candidates[1..];
      AnyKeysMatchIff(rest, nameKey, descriptionKey);
      if exists j :: 0 <= j < |candidates| && KeysMatch(candidates[j], nameKey, descriptionKey) {
        var j :| 0 <= j < |candidates| && KeysMatch(candidates[j], nameKey, descriptionKey);
        if j > 0 {
          assert rest[j - 1] == candidates[j];
        }
      }
      if exists j :: 0 <= j < |rest| && KeysMatch(rest[j], nameKey, descriptionKey) {
        var j :| 0 <= j < |rest| && KeysMatch(rest[j], nameKey, descriptionKey);
        assert candidates[j + 1] == rest[j];
      }
    }
  }

  /** Filtering first and comparing keys afterwards finds exactly the conflicts. */
  lemma {:induction false} CandidatesFindConflicts(p: ProductFields, rows: seq<StoredProduct>)
    ensures HasDuplicate(p, rows) <==> AnyKeysMatch(Candidates(p, rows), Key(p.name), Key(p.description))
  {
    if rows != [] {
      var e, rest := rows[0], Candidates(p, rows[1..]);
      CandidatesFindConflicts(p, rows[1..]);
      if e.category == p.category && !IsSelf(p, e) {
        var cs := [e] + rest;
        assert cs[0] == e && cs[1..] == rest;
      }
    }
  }

  /** The loop over the query's rows: is there one whose keys equal the given keys? */
  method ScanForKeys(candidates: seq<StoredProduct>, nameKey: string, descriptionKey: string)
    returns (found: bool)
    ensures found <==> exists j :: 0 <= j < |candidates| && KeysMatch(candidates[j], nameKey, descriptionKey)
  {
    var i := 0;
    while i < |candidates|
      invariant 0 <= i <= |candidates|
      invariant forall j :: 0 <= j < i ==> !KeysMatch(candidates[j], nameKey, descriptionKey)
    {
      if KeysMatch(candidates[i], nameKey, descriptionKey) {
        return true;
      }
      i := i + 1;
    }
    return false;
  }

  /** The duplicate query, the keys of `p`, and the scan, stopping at the first match. */
  method FindDuplicate(p: ProductFields, rows: seq<StoredProduct>) returns (found: bool)
    ensures found <==> HasDuplicate(p, rows)
  {
    var candidates := Candidates(p, rows);
    var nameKey := Key(p.name);
    var descriptionKey := Key(p.description);
    found := ScanForKeys(candidates, nameKey, descriptionKey);
    AnyKeysMatchIff(candidates, nameKey, descriptionKey);
    CandidatesFindConflicts(p, rows);
  }

  class Product {
    var pk: Option<int>
    var name: Option<string>
    var description: Option<string>
    var price: Option<int>
    var quantity: Option<int>
    var category: string
    var isArchived: bool

    /** A new, unsaved product. */
    constructor (name: Option<string>, description: Option<string>, price: Option<int>,
                 quantity: Option<int>, category: string)
      ensures Fields() == ProductFields(None, name, description, price, quantity, category)
      ensures !isArchived
    {
      this.pk := None;
      this.name := name;
      this.description := description;
      this.price := price;
      this.quantity := quantity;
      this.category := category;
      this.isArchived := false;
    }

    function Fields(): ProductFields
      reads this
    {
      ProductFields(pk, name, description, price, quantity, category)
    }

    /**
     * `clean`: returns the first failing check (None when all pass) and
     * rewrites the name and description once the name check has passed.
     */
    method Clean(rows: seq<StoredProduct>) returns (err: Option<CleanError>)
      modifies this`name, this`description
      ensures err == CleanOutcome(old(Fields()), rows)
      ensures Fields() == AfterClean(old(Fields()))
    {
      var original := Fields();
      var normalizedName := Collapse(OrEmpty(name));
      if normalizedName == "" {
        return Some(NameRequired);
      }
      name := Some(normalizedName);
      description := Some(Strip(OrEmpty(description)));

      if price.None? {
        return Some(PriceRequired);
      }
      if price.value <= 0 {
        return Some(PriceNotPositive);
      }

      if quantity.None? {
        return Some(QuantityRequired);
      }
      if quantity.value < 0 {
        return Some(QuantityNegative);
      }

      var duplicate := FindDuplicate(original, rows);
      if duplicate {
        return Some(DuplicateProduct);
      }
      return None;
    }
  }

  // ---------------------------------------------------------------------------
  // Properties of clean
  // ---------------------------------------------------------------------------

  /**
   * The checks run in order name, price, quantity, duplicate; each error is
   * raised exactly when its check fails and every earlier one passed.
   */
  lemma FirstFailingCheck(p: ProductFields, rows: seq<StoredProduct>)
    ensures CleanOutcome(p, rows) == Some(NameRequired) <==> AllSpace(OrEmpty(p.name))
    ensures CleanOutcome(p, rows) == Some(PriceRequired) <==>
      !AllSpace(OrEmpty(p.name)) && p.price.None?
    ensures CleanOutcome(p, rows) == Some(PriceNotPositive) <==>
      !AllSpace(OrEmpty(p.name)) && p.price.Some? && p.price.value <= 0
    ensures CleanOutcome(p, rows) == Some(QuantityRequired) <==>
      !AllSpace(OrEmpty(p.name)) && p.price.Some? && p.price.value >= 1 && p.quantity.None?
    ensures CleanOutcome(p, rows) == Some(QuantityNegative) <==>
      !AllSpace(OrEmpty(p.name)) && p.price.Some? && p.price.value >= 1
      && p.quantity.Some? && p.quantity.value < 0
    ensures CleanOutcome(p, rows) == Some(DuplicateProduct) <==>
      !AllSpace(OrEmpty(p.name)) && p.price.Some? && p.price.value >= 1
      && p.quantity.Some? && p.quantity.value >= 0 && HasDuplicate(p, rows)
  {
    CollapseEmptyIff(OrEmpty(p.name));
  }

  /**
   * Once the name check passes, and whatever the later checks decide, the
   * stored name is the non-empty collapsed name.
   */
  lemma CleanedName(p: ProductFields)
    requires Collapse(OrEmpty(p.name)) != ""
    ensures var q := AfterClean(p);
      q.name == Some(Collapse(OrEmpty(p.name))) && IsCollapsed(q.name.value)
  {
    CollapseShape(OrEmpty(p.name));
  }

  /**
   * Once the name check passes, and whatever the later checks decide, the
   * stored description is the original stripped (None becoming ""), not
   * collapsed, and the fields other than name and description are unchanged.
   */
  lemma CleanedDescription(p: ProductFields)
    requires Collapse(OrEmpty(p.name)) != ""
    ensures var q := AfterClean(p);
      && q.description == Some(Strip(OrEmpty(p.description)))
      && (q.description.value == [] ||
          (!IsSpace(q.description.value[0]) && !IsSpace(q.description.value[|q.description.value| - 1])))
      && q.pk == p.pk && q.price == p.price && q.quantity == p.quantity && q.category == p.category
  {
    StripEdges(OrEmpty(p.description));
  }

  /** Cleaning leaves the keys that the duplicate check compares unchanged. */
  lemma AfterCleanKeepsKeys(p: ProductFields)
    ensures Key(AfterClean(p).name) == Key(p.name)
    ensures Key(AfterClean(p).description) == Key(p.description)
  {
    var n, d := Collapse(OrEmpty(p.name)), Strip(OrEmpty(p.description));
    if n != "" {
      assert AfterClean(p).name == Some(n) && AfterClean(p).description == Some(d);
      CollapseIdempotent(OrEmpty(p.name));
      assert Key(Some(n)) == CaseFold(n);
      CollapseStrip(OrEmpty(p.description));
      assert Key(Some(d)) == CaseFold(Collapse(OrEmpty(p.description)));
    }
  }

  /**
   * The verdict of `clean` depends on the name and description only through
   * their keys: two products that agree on everything else and whose
   * collapsed, ASCII-folded names and descriptions are equal get the same
   * outcome.
   */
  lemma OutcomeDependsOnKeys(p: ProductFields, q: ProductFields, rows: seq<StoredProduct>)
    requires p.pk == q.pk && p.category == q.category
    requires p.price == q.price && p.quantity == q.quantity
    requires Key(p.name) == Key(q.name) && Key(p.description) == Key(q.description)
    ensures CleanOutcome(p, rows) == CleanOutcome(q, rows)
  {
    assert |Key(p.name)| == |Collapse(OrEmpty(p.name))|;
    assert |Key(q.name)| == |Collapse(OrEmpty(q.name))|;
    SameKeysSameDuplicates(p, q, rows);
  }

  lemma {:induction false} SameKeysSameDuplicates(p: ProductFields, q: ProductFields, rows: seq<StoredProduct>)
    requires p.pk == q.pk && p.category == q.category
    requires Key(p.name) == Key(q.name) && Key(p.description) == Key(q.description)
    ensures HasDuplicate(p, rows) == HasDuplicate(q, rows)
  {
    if rows != [] {
      SameKeysSameDuplicates(p, q, rows[1..]);
    }
  }

  /** Cleaning twice rewrites nothing more than cleaning once. */
  lemma AfterCleanFixpoint(p: ProductFields)
    ensures AfterClean(AfterClean(p)) == AfterClean(p)
  {
    var n, d := Collapse(OrEmpty(p.name)), Strip(OrEmpty(p.description));
    if n != "" {
      CollapseIdempotent(OrEmpty(p.name));
      StripIdempotent(OrEmpty(p.description));
    }
  }

  /**
   * Cleaning again changes nothing: the rewritten fields are a fixed point
   * and the outcome against the same rows is the same.
   */
  lemma CleanIdempotent(p: ProductFields, rows: seq<StoredProduct>)
    ensures AfterClean(AfterClean(p)) == AfterClean(p)
    ensures CleanOutcome(AfterClean(p), rows) == CleanOutcome(p, rows)
  {
    AfterCleanFixpoint(p);
    AfterCleanKeepsKeys(p);
    OutcomeDependsOnKeys(AfterClean(p), p, rows);
  }

  /**
   * A product whose category differs from every row's, or whose only
   * same-category rows are its own, is never a duplicate.
   */
  lemma NoConflictOutsideCategoryOrSelf(p: ProductFields, rows: seq<StoredProduct>)
    requires forall e :: e in rows ==> e.category != p.category || IsSelf(p, e)
    ensures CleanOutcome(p, rows) != Some(DuplicateProduct)
  {
    HasDuplicateIff(p, rows);
  }

  /**
   * The uniqueness the duplicate check maintains among products saved one
   * after another, each after `clean` (rows written without it, or validated
   * concurrently against the same rows, are not constrained): once `q` has
   * cleaned successfully and been saved, another product of the same
   * category whose collapsed, ASCII-folded name and description equal `q`'s
   * is refused as a duplicate, as soon as its other fields pass.
   */
  lemma SavedProductBlocksEquivalent(q: ProductFields, savedPk: int, p: ProductFields,
                                     rows: seq<StoredProduct>)
    requires CleanOutcome(q, rows) == None
    requires p.category == q.category
    requires !(PkIsSet(p.pk) && p.pk.value == savedPk)
    requires Key(p.name) == Key(q.name) && Key(p.description) == Key(q.description)
    requires !AllSpace(OrEmpty(p.name))
    requires p.price.Some? && p.price.value >= 1 && p.quantity.Some? && p.quantity.value >= 0
    ensures var saved := AfterClean(q);
      CleanOutcome(p, rows + [StoredProduct(savedPk, saved.category, saved.name, saved.description)])
        == Some(DuplicateProduct)
  {
    var saved := AfterClean(q);
    var row := StoredProduct(savedPk, saved.category, saved.name, saved.description);
    AfterCleanKeepsKeys(q);
    assert Conflicts(p, row);
    assert row in rows + [row];
    HasDuplicateIff(p, rows + [row]);
    FirstFailingCheck(p, rows + [row]);
  }
}
