# PC-build inventory: product validation and ledger labels

This project models the domain logic of an inventory and PC-build web application, as found in `Base/models.py`.

The centre of the model is `Product.clean`. It is the model-level validator Django runs when an instance is validated with `full_clean`, as the admin's model form for `Product` (`Base/admin.py`) does; the product views in `Base/views.py` save with `Product.objects.create` and `product.save()`, which do not call it. It works through these steps in order:

1. It collapses the whitespace of the name and description, as Python's `" ".join(s.split())` does.
2. It refuses an empty name.
3. It writes the collapsed name back, and stores the description stripped but not collapsed.
4. It refuses a missing or non-positive price.
5. It refuses a missing or negative quantity.
6. It refuses a duplicate: another product of the same category whose collapsed, case-folded name and description both equal this product's. The product's own row is excluded when its primary key is set.

The model also covers three small derived values:

- the subtotal of a build line;
- the signed quantity in a stock movement's label;
- the actor shown in an audit-log entry's label.

Modules:

- `Wrappers` (`wrappers.dfy`): `Option`, for the fields Python lets be `None`.
- `Text` (`text.dfy`): `str.split`, `" ".join`, `str.strip` and `str.casefold`. Whitespace is the set `str.isspace()` accepts, which is the set the argument-less `split()` and `strip()` use.
- `Catalog` (`catalog.dfy`): `Product` is a class whose `Clean` method rewrites `name` and `description` in place. `Clean` is proved against the functions `CleanOutcome` (which check fails first) and `AfterClean` (the fields afterwards). The duplicate query is `Candidates`. The loop over that query is `ScanForKeys`. The lemmas below state what `clean` guarantees.
- `Numerals` and `Ledger` (`ledger.dfy`): decimal rendering of integers, the subtotal, and the two `__str__` labels.

Modelling choices:

- Prices are integer cents. The field has two decimal places and a minimum of 0.01, so "greater than 0" and "at least one cent" are the same check.
- `price` and `quantity` are `Option<int>`, because `clean` tests them for `None`.
- The primary key is excluded only when it is truthy in Python (`if self.pk:`): set and non-zero.
- The rows the duplicate query reads are passed in as a sequence. Archived products are among them, because the query does not filter on `is_archived`.
- The order of the rows does not matter. Every match raises the same error.

## Model

| member | source | states |
|---|---|---|
| `Wrappers.OrEmpty` | Base/models.py:36-60 | definition of `x or ''` on a string-or-None field: the string itself, "" for None |
| `Text.IsSpace` | Base/models.py:36-41 | definition: the characters for which Python's `str.isspace()` holds, the separators argument-less `split()` and `strip()` use |
| `Text.LeadingWord` | Base/models.py:36-37 | the first piece `split()` cuts off: a prefix of the input, free of whitespace, and ending at whitespace or at the end of the input |
| `Text.Split` | Base/models.py:36-37 | definition of argument-less `str.split()`: whitespace runs are skipped and each maximal run of non-whitespace characters is one piece, in order |
| `Text.JoinWithSpace` | Base/models.py:36-37 | definition of `" ".join(words)`: the words in order with one plain space between neighbours |
| `Text.Collapse` | Base/models.py:36-37 | definition of the normalisation `" ".join(s.split())` as the composition of the two above |
| `Text.Strip` | Base/models.py:41 | definition of `strip()` as `rstrip` after `lstrip` |
| `Text.SplitYieldsWords` | Base/models.py:36-37 | every piece `split()` yields is non-empty and free of whitespace |
| `Text.SplitJoin` | Base/models.py:36-37 | splitting `" ".join(words)` gives the words back (round trip of split and join) |
| `Text.CollapseShape` | Base/models.py:36-37 | the normalised string has no leading or trailing whitespace, no whitespace but plain spaces, and no two whitespace characters in a row |
| `Text.CollapseKeepsVisible` | Base/models.py:36-37 | normalising keeps every non-whitespace character, in order |
| `Text.CollapseEmptyIff` | Base/models.py:36-38 | the normalised string is empty exactly when the input is whitespace only |
| `Text.CollapseIdempotent` | Base/models.py:36-37 | normalising twice gives the same result as normalising once |
| `Text.TrimStart` | Base/models.py:41 | the left half of `strip()`: the result is a suffix of the input, everything dropped is whitespace, and the result does not start with whitespace |
| `Text.TrimEnd` | Base/models.py:41 | the right half of `strip()`: the result is a prefix of the input, everything dropped is whitespace, and the result does not end with whitespace |
| `Text.StripEdges` | Base/models.py:41 | the stripped description has no whitespace at either end |
| `Text.StripIdempotent` | Base/models.py:41 | stripping twice is stripping once |
| `Text.CollapseStrip` | Base/models.py:37-41 | the stored (stripped) description normalises to the same string as the original |
| `Text.FoldChar` | Base/models.py:56-60 | definition of `casefold` on one character: A–Z to its lower-case letter, every other character kept |
| `Text.CaseFold` | Base/models.py:56-60 | case folding keeps the length of the string |
| `Text.CaseFoldAt` | Base/models.py:56-60 | case folding works position by position: each character of the result is the fold of the character at the same place |
| `Text.CaseFoldLetters` | Base/models.py:56-60 | each letter A–Z becomes its lower-case form, every other character is kept, and no upper-case ASCII letter is left |
| `Text.CaseFoldEqualIff` | Base/models.py:56-61 | two strings fold to the same string exactly when they have the same length and agree position by position up to ASCII case |
| `Catalog.Message` | Base/models.py:39-65 | definition: the message text of each of the six `ValidationError`s, as written in the source |
| `Catalog.Key` | Base/models.py:56-60 | definition of the comparison key: the value (None read as "") collapsed, then case-folded |
| `Catalog.SameKeyIff` | Base/models.py:56-61 | two values have equal keys exactly when their collapsed forms have the same length and agree position by position up to ASCII case |
| `Catalog.PkIsSet` | Base/models.py:54 | definition of `if self.pk:`: the pk is set and non-zero |
| `Catalog.IsSelf` | Base/models.py:54-55 | definition of the row `exclude(pk=self.pk)` removes: the product has a truthy pk and the row carries it |
| `Catalog.KeysMatch` | Base/models.py:59-61 | definition of the loop's test: the row's collapsed, folded name and description equal the given keys |
| `Catalog.Conflicts` | Base/models.py:53-61 | definition of a row that makes `clean` raise the duplicate error: same category, not the product itself, both keys equal |
| `Catalog.Candidates` | Base/models.py:53-55 | definition of the duplicate query: the rows of the product's category, in order, without the product's own row when its pk is truthy |
| `Catalog.HasDuplicate` | Base/models.py:53-61 | definition: some row is of the same category, is not the product itself, and has both keys equal to the product's |
| `Catalog.CleanOutcome` | Base/models.py:35-67 | definition of the verdict of `clean`: the first of the six `raise` sites whose condition holds, in source order, or none |
| `Catalog.AfterClean` | Base/models.py:36-41 | definition of the fields after `clean`: unchanged when the name is blank, else the name collapsed and the description stripped (None read as "") |
| `Catalog.ErrorFields` | Base/models.py:38-67 | each error is reported on exactly one field, except the duplicate error, which is reported on both `name` and `description`; only the duplicate error touches `description` |
| `Catalog.CandidatesAreTheQuery` | Base/models.py:53-55 | the query yields exactly the rows of the product's category, minus the product's own row when its pk is set |
| `Catalog.ScanForKeys` | Base/models.py:58-67 | the loop reports a match exactly when some row yielded by the query has both keys equal to the product's |
| `Catalog.AnyKeysMatchIff` | Base/models.py:58-67 | the scan's recursive reading agrees with "some index holds a row with both keys equal" |
| `Catalog.CandidatesFindConflicts` | Base/models.py:53-67 | filtering by category and pk and then comparing keys finds exactly the conflicting rows |
| `Catalog.FindDuplicate` | Base/models.py:53-67 | the query plus the loop reports a duplicate exactly when some row conflicts with the product |
| `Catalog.HasDuplicateIff` | Base/models.py:53-67 | a duplicate exists exactly when some row is in the same category, is not the product itself, and has equal name and description keys |
| `Catalog.Product.constructor` | Base/models.py:18-31 | a new product has no pk, is not archived, and holds the given field values |
| `Catalog.Product.Clean` | Base/models.py:35-67 | returns the first failing check (or none), and the name and description are rewritten exactly as `AfterClean` says, whatever the later checks decide |
| `Catalog.FirstFailingCheck` | Base/models.py:35-67 | checks run in the order name, price, quantity, duplicate. The name error is raised exactly when the name is None or whitespace only. The price errors are raised exactly when the price is None, or is ≤ 0. The quantity errors are raised exactly when the quantity is None, or is < 0. The duplicate error is raised exactly when a conflicting row exists. Each error also needs every earlier check to pass |
| `Catalog.CleanedName` | Base/models.py:36-40 | once the name check passes, the stored name is the non-empty collapsed name |
| `Catalog.CleanedDescription` | Base/models.py:37-41 | once the name check passes, the stored description is the original stripped, with None becoming "" and without collapsing. Pk, price, quantity and category are unchanged |
| `Catalog.AfterCleanKeepsKeys` | Base/models.py:36-60 | the rewrite does not change the keys that the duplicate check compares |
| `Catalog.OutcomeDependsOnKeys` | Base/models.py:35-67 | the verdict depends on name and description only through their collapsed, case-folded keys |
| `Catalog.SameKeysSameDuplicates` | Base/models.py:53-67 | two products with the same pk, category and keys conflict with the same rows |
| `Catalog.AfterCleanFixpoint` | Base/models.py:36-41 | cleaning an already cleaned product rewrites nothing |
| `Catalog.CleanIdempotent` | Base/models.py:35-67 | cleaning is idempotent: the rewritten fields are a fixed point, and cleaning again against the same rows gives the same outcome |
| `Catalog.NoConflictOutsideCategoryOrSelf` | Base/models.py:53-55 | rows of other categories and the product's own row never cause a duplicate error |
| `Catalog.SavedProductBlocksEquivalent` | Base/models.py:53-67 | once a product has cleaned and been saved, another product of its category whose collapsed, ASCII-folded name and description equal the saved product's is refused as a duplicate, provided it passes the other checks and is not the same row |
| `Numerals.IntToString` | Base/models.py:147 | definition of `str(int)`: a minus sign before the digits of the magnitude for a negative number, the digits alone otherwise |
| `Numerals.Digits` | Base/models.py:147 | the rendering of a non-negative integer is a non-empty run of decimal digits, with no leading zero except for 0 itself |
| `Numerals.ParseDigitsOfDigits` | Base/models.py:147 | reading the rendered digits back gives the number |
| `Ledger.Subtotal` | Base/models.py:111-115 | the subtotal is non-negative when the price is, zero for zero units, exactly the unit price for one unit, and at least the unit price for one unit or more |
| `Ledger.SubtotalIsSumOfUnits` | Base/models.py:114-115 | the subtotal equals the sum of one `price_at_time` per unit on the line |
| `Ledger.SignedChange` | Base/models.py:146-147 | definition of the signed quantity: `+` before a change ≥ 0, then `str(change)` |
| `Ledger.SignedChangeRoundTrip` | Base/models.py:146-147 | the signed quantity starts with exactly one sign: `+` exactly when the change is ≥ 0 (zero included), `-` exactly when it is negative. Digits follow, and reading the text back gives the change |
| `Ledger.MovementLabel` | Base/models.py:145-147 | the label is the product name, a space, the signed quantity `SignedChange(change)` (whose first character is `+` exactly when the change is ≥ 0), then ` (`, the reason and `)` |
| `Ledger.Actor` | Base/models.py:175 | the username whenever the entry has a user, even an empty username. Otherwise the identifier when it is non-empty, and "anonymous" when there is no user and the identifier is empty. It is never empty for an entry without a user |
| `Ledger.AuditLabel` | Base/models.py:174-176 | the label is the action, then ` (`, the status and `) - `, then the actor |

## Left out

- `Text.CaseFold`: folds only the ASCII letters A–Z. Python's `casefold` also folds other scripts, and can change the length (`ß` becomes `ss`). Duplicates that differ only in non-ASCII case are therefore not detected by the model.
- Field validators run by `full_clean` before `clean` (max length, max digits and decimal places, category choices) are not modelled. `Product.Clean` models `clean` called on any values the model's types can hold.
- `Product.Clean`: the price is a whole number of cents, so a `Decimal` price with more than two decimal places (for example 0.001, which `self.price <= 0` lets through when `clean` runs without the field validators) cannot be represented.
- Save paths that skip `clean` are not modelled. The guarantees proved here (normalised name and description, no duplicate within a category) hold only for products saved after `clean` ran (through `full_clean`, as the admin form does). The product views in `Base/views.py` save without it, so their rows need not satisfy them.
- The race between the duplicate check and the save is not modelled. `clean` reads the rows and the save happens later, and `Product` has no unique constraint, so two equivalent products validated at the same time against the same rows both pass. "No duplicate within a category" assumes the saves happen one after another, each seeing the rows saved before it, as `Catalog.SavedProductBlocksEquivalent` states.
- The category filter is modelled as exact string equality. A database collation that compares case-insensitively is not modelled.
- Integer widths are not modelled. The quantity column is a 32-bit integer in the database, but `clean` sees Python's unbounded integers.
- `Ledger.Subtotal`: computed exactly in cents. Python's `Decimal` context precision (28 digits) is not modelled. The fields' sizes keep products well inside it.
- `Base/views.py` is not part of this model. It holds the request handlers (listing, search, add, edit, delete product), the ORM calls, the redirects and the flash messages.
- The checkout engine, the login rate limiter, the audit-log writes, archive, restore, delete and bulk actions, and forcing the `staff` role at signup are not part of this model. Routes refer to them, but the code that implements them (further views and `Base.signals`) is not among the files modelled.
- Deletion protection (`on_delete=PROTECT`, `CASCADE`, `SET_NULL`) is database and framework behaviour.
- `Product.__str__`, `Profile.__str__`, `PCBuild.__str__` and `PCBuildItem.__str__` are left out. They only print stored fields.
- `Profile`, the image field, the timestamps (`auto_now`, `auto_now_add`) and `ordering` are left out. They are persistence and clock behaviour, with no logic.
