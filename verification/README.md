# violette ledger, modelled in Dafny

This project models the account ledger behind violette's mock banking page (`script.js`). The page holds one account record: an account number, a balance and a transaction list, newest first. Two appliers debit it:

- the transfer form (`processTransfer`);
- the QPay payment (`processQPayPayment`).

Each applier validates the amount entered, then commits. A commit puts a new transaction at the head of the list, replaces the balance and saves the record.

The record is persisted in one storage slot:

- loaded when the page opens;
- saved after every commit;
- removed and reloaded by the reset action.

The home page shows the list grouped by date, newest date first. Amounts are rendered with a thousands separator, and transactions are stamped `YYYY.MM.DD` and `HH:MM`.

The project has four modules:

- `Wrappers` (`wrappers.dfy`): the `Option` type, used for a missing stored record and for an amount that is not a number.
- `Format` (`format.dfy`): the pure display helpers.
  - `formatAmount` is modelled as `FixedTwo`, the `toFixed(2)` rendering of an exact number of minor units, followed by `InsertSeparators`. `InsertSeparators` is a character-by-character reading of the regular expression `/\d(?=(\d{3})+\.)/g`.
  - The result is proved equal to an independent grouping from the right (`GroupThousands`).
  - It is also proved to read back to the amount.
  - `formatDate` and `formatTime` take the calendar fields as a `Moment`.
- `Ledger` (`ledger.dfy`): the validation functions (`CheckTransfer`, `CheckQPay`) and the commit function `Post`.
  - The class `Session` holds the state of one page: the record in memory, the storage slot, and the default data's transaction list.
  - `Session`'s methods are the page's load, save, transfer, QPay payment and reset.
- `History` (`history.dfy`): the grouping of `updateTransactionsList`.
  - A method gathers a dictionary in one pass, sorts its keys, reverses them and lists the groups.
  - It is proved against `IsDateGrouping`, together with lemmas: each transaction lands in exactly one group, same-day order is kept, and reading the groups top to bottom is a permutation of the list.
  - For years of four digits, the string order of date stamps is proved to be calendar order, so the headings run from the newest day to the oldest.

Money is an integer number of minor units (1/100 of a tögrög), so `60000000000.96` is `6000000000096`. An entered amount is `Option<int>`; `None` stands for a text that `parseFloat` reads as `NaN`, or for a cancelled prompt.

Three points where the code and its documented intent part ways; the model follows the code:

- The head transaction's `remainingBalance` equals the balance only after a commit. The default data breaks it: 29125.96 against 60000000000.96. `Reconciled` therefore covers only the transactions this session committed (`Session.committed`), and `SeedNotReconciled` shows that the default data is not reconciled.
- Reset does not restore the two default transactions once a commit has been made while the record shares the default list. The record shares it when the session opened without stored data, and after any confirmed reset. `{...defaultAccountData}` copies the record but shares its transaction array, and `unshift` grows that shared array. So a session opened on stored data that resets, commits, then resets again also keeps that commit in the list. `Session` models this with `seedTransactions` and `sharesSeed`. `TransferThenResetFromDefault` shows a reset that still lists the transfer. `PayThenResetFromStored` covers a single payment on stored data followed by one reset, which gives exactly the default data.
- A "debit" with a negative amount is a credit. The funds check compares the balance with the magnitude, so the balance moves by the signed amount, which is not always `-|amount|`.

## Model

| member | source | states |
|---|---|---|
| Format.Digits | script.js:63-65 | `String(n)` of a natural number: decimal digits only, no leading zero, denoting `n`; one character exactly when `n < 10` |
| Format.IntString | script.js:63 | the year as `String` renders it: a minus sign for a negative year, then digits denoting its magnitude, with no leading zero except for the year 0 itself |
| Format.PadStart | script.js:64-65 | `padStart(width, fill)`: the text is kept at the end, the result has the larger of its length and the width, and every character in front is the fill |
| Format.ZeroPad2 | script.js:64-65 | `padStart(2, '0')` of a field below 100: exactly two digits denoting the field; from 10 on, the plain rendering |
| Format.FormatDate | script.js:62-67 | the date stamp is six characters longer than the year's rendering |
| Format.DateStampFields | script.js:62-67 | the date stamp reads back field by field: the year, a dot, two digits denoting the month, a dot, two digits denoting the day; a year of four digits gives the ten-character `YYYY.MM.DD` |
| Format.FourDigitYear | script.js:63 | a year from 1000 to 9999 renders in four characters |
| Format.DigitsLength | script.js:63 | the rendering of `n` has `k + 1` digits when `10^k <= n < 10^(k+1)` |
| Format.FormatTime | script.js:70-74 | the time stamp has five characters |
| Format.TimeStampFields | script.js:70-74 | the time stamp reads back: two digits denoting the hour, a colon, two digits denoting the minute |
| Format.FixedTwo | script.js:58 | `toFixed(2)` of an exact amount: at least four characters, a dot third from the end, no comma |
| Format.UnsignedFixed | script.js:58 | the rendering of a magnitude starts with a digit and reads back as that magnitude |
| Format.FixedTwoRoundTrip | script.js:58 | reading the `toFixed(2)` rendering back gives the amount |
| Format.InsertSeparators | script.js:58 | the regex replacement only inserts commas: with the commas removed, its output equals its input with the commas removed |
| Format.FormatAmount | script.js:57-59 | removing the commas gives the plain two-decimal rendering; the result is the sign, then the whole units grouped by thousands from the right, then the dot and two cent digits, so commas sit only in the integer part; the grouping is well formed |
| Format.SeparatorsGroupThousands | script.js:58 | the regular expression's output equals the sign, the reference grouping of the whole units, and the untouched cents |
| Format.SeparatorsInMagnitude | script.js:58 | on digits followed by a dot and a tail without a dot, the regular expression inserts exactly the reference grouping of the digits and leaves the tail alone |
| Format.GroupingIsWellFormed | script.js:58 | the grouping of a digit string has a first group of one to three digits, then groups of exactly three digits each after a comma, and removing the commas gives the digits back |
| Format.AmountTextRoundTrip | script.js:263-264 | the transfer form's reading of a rendered amount (commas stripped, then parsed) gives the amount back |
| Format.TruncateName | script.js:314 | a name of at most 10 characters is kept; a longer one becomes its first 10 characters and `...` |
| Ledger.CheckTransfer | script.js:270-278 | rejected as invalid exactly when a recipient field is empty or the amount is zero or not a number, checked before funds; rejected for funds exactly when the fields and amount pass but the balance is below the amount's magnitude; accepted exactly when every check passes, with the negated entry as the nonzero amount, leaving a non-negative balance |
| Ledger.CheckQPay | script.js:339-348 | rejected without message exactly when there is no number; rejected for funds exactly when the balance is below the magnitude; accepted exactly when a number is covered by the balance, zero included, with the negated entry as the amount |
| Ledger.TransferLabel | script.js:268 | a blank description becomes exactly "Transfer"; a typed one is kept |
| Ledger.ReadAmount | script.js:263-264 | the amount text with its commas dropped is read as a two-decimal number; a text without commas reads as the number it spells |
| Ledger.Keypad | script.js:328-333 | a number typed into the keypad prompt replaces the amount shown by text that the transfer reads back as that number; a cancelled or unreadable reply leaves it |
| Ledger.BlankAmountRefused | script.js:246 | a transfer confirmed while the form still shows `0.00` is refused as an invalid amount |
| Ledger.Post | script.js:280-293 | the committed record: same account number, balance plus the signed amount, one new transaction at the head carrying the date and time stamps of `now`, the signed amount, the description, the type and the new balance as its snapshot, the old list behind it |
| Ledger.PushReconciles | script.js:292-293 | a head transaction whose snapshot is the old balance plus its amount, made the balance, extends the reconciled prefix by one |
| Ledger.PostReconciles | script.js:280-293 | every commit extends the reconciled prefix by one |
| Ledger.ReconciledBalance | script.js:280-293 | in a reconciled prefix, the balance is the oldest snapshot in it plus the amounts of the transactions committed after it |
| Ledger.SeedNotReconciled | script.js:14-35 | the default data's head snapshot is not its balance |
| Ledger.Session.constructor | script.js:1-11 | opening the page loads the stored record when there is one, otherwise a saved copy of the default data |
| Ledger.Session.Load | script.js:41-49 | the stored record when there is one, not sharing the default list; otherwise a copy of the default data that shares its list, saved at once; the slot then holds the record in memory |
| Ledger.Session.Save | script.js:52-54 | the slot holds the whole record |
| Ledger.Session.Transfer | script.js:262-300 | a rejection changes nothing and reports the reason `CheckTransfer` gives; an acceptance commits `Post` of the negated amount with the transfer label and type `up`, returns the new head, saves, and writes into the default list when shared |
| Ledger.Session.PayQPay | script.js:336-376 | a rejection changes nothing; an acceptance, zero included, commits `Post` of the negated amount labelled "QPay Payment" with type `qr`, returns the new head and saves |
| Ledger.Session.Apply | script.js:290-296 | the shared commit: the record becomes `Post` of the old record, the slot mirrors it, the reconciled prefix grows by one, the default list follows when shared |
| Ledger.Session.Reset | script.js:379-386 | a declined confirmation changes nothing; a confirmed one reloads a copy of the default data whose list is the default list as it now is, possibly grown, and saves it |
| Ledger.TransferThenResetFromDefault | script.js:379-386 | after a transfer and a reset in a session opened without stored data, the default balance is back but the list still holds the transfer above the two default transactions |
| Ledger.RentFromDefault | script.js:262-300 | a transfer of 100.00 described "Rent" on the default data leaves 59999999900.96, with the new head carrying -100.00 and that balance |
| Ledger.PayThenResetFromStored | script.js:379-386 | after a payment and a reset in a session opened on stored data, the record is exactly the default data |
| Ledger.Reopen | script.js:41-49 | opening the page again loads the record the session left in the slot |
| History.Below | script.js:151 | the string comparison of the default `sort()` is the lexicographic order of character codes: the strings agree up to some position, where the first one ends while the second goes on or has the smaller character |
| History.BelowIrreflexive | script.js:151 | no date sorts before itself |
| History.BelowTransitive | script.js:151 | the string order of the sort is transitive |
| History.BelowTotal | script.js:151 | of two different dates, one sorts before the other |
| History.BelowAsymmetric | script.js:151 | two dates never sort before each other |
| History.Insert | script.js:151 | inserting a new date into an ascending list keeps it ascending and adds exactly that date |
| History.SortDates | script.js:151 | `sort()` of the distinct dates: strictly ascending, the same dates |
| History.Reverse | script.js:151 | `reverse()`: the same dates, back to front |
| History.ReverseDescends | script.js:151 | the reversed ascending dates are strictly descending |
| History.GatherByDate | script.js:143-149 | the loop builds exactly the dictionary and key order of the one-push-at-a-time fold `Gather` |
| History.Gather | script.js:143-149 | the fold creates at most one key per transaction |
| History.GatherIsGathered | script.js:143-149 | after the pass, each date present maps to that date's transactions in list order, never to an empty list; no other date is a key; the keys are distinct |
| History.GatherEntry | script.js:144-149 | one date's entry after the pass is that date's transactions in order, and a date with no transactions has no entry |
| History.GatherKeyOrder | script.js:144-147 | the date keys are created once each and are exactly the dictionary's dates |
| History.GatherKeys | script.js:151 | `Object.keys` of the dictionary lists each of its dates once |
| History.GatheredCovers | script.js:143-149 | every transaction's date is a key of the dictionary |
| History.GroupsShowHistory | script.js:143-162 | listing the dictionary under its dates sorted and reversed gives the history: descending dates, each with exactly its transactions |
| History.ListGroups | script.js:153-162 | one heading per sorted date, in that order, each with the dictionary's transactions |
| History.GroupByDate | script.js:143-162 | the groups shown: dates strictly descending, each holding exactly that date's transactions in list order, none empty, every transaction's date present |
| History.FilterAppend | script.js:144-149 | gathering a concatenation gathers each part in turn |
| History.FilterIndex | script.js:144-149 | a transaction sits in its date's group at its rank, the count of same-date transactions before it |
| History.RankIncreases | script.js:144-149 | a later transaction of the same date has a larger rank |
| History.GroupKeepsOrder | script.js:144-149 | two transactions of one date appear under it in their list order |
| History.DatesAreDistinct | script.js:151 | no date heading appears twice |
| History.EachInExactlyOneGroup | script.js:143-162 | every transaction is listed under the heading of its date, and under no other heading |
| History.BelowConcat | script.js:151 | comparing two strings whose first parts have one length compares the first parts, then the rest when the first parts are equal |
| History.BelowDigits | script.js:151 | on digit strings of one length, the sort's string order is the order of the numbers they denote, and equal strings are equal numbers |
| History.BelowStamps | script.js:151 | two `YYYY.MM.DD` stamps compare by year text, then month text, then day text |
| History.DateOrderIsChronological | script.js:62-67 | for four-digit years, one date stamp sorts before another exactly when its day is earlier, and two stamps are equal exactly on the same day |
| History.HistoryNewestFirst | script.js:151 | in the history of four-digit-year stamps, a heading above another is a later day |
| History.FilterSnoc | script.js:144-149 | one more transaction lands at the end of its own date's group and leaves other dates' groups alone |
| History.FlattenIsFilterAll | script.js:153-162 | reading the listed groups in order gives each heading's date filter in turn |
| History.FilterAllSnoc | script.js:153-162 | one more transaction appears once in the listing when its date is among the distinct headings, otherwise not at all |
| History.FilterAllCovers | script.js:153-162 | when every transaction's date is a heading, the listing holds every transaction exactly as often as the record |
| History.StampOrder | script.js:62-67 | on `YYYY.MM.DD` stamps of two days, the sort order is the calendar order and equal stamps are the same day |
| History.StampEquality | script.js:62-67 | two stamps are equal exactly when year, month and day parts are equal |
| History.FlattenIsPermutation | script.js:153-162 | reading the history top to bottom lists every transaction exactly as often as the record holds it |

## Left out

- DOM work is not modelled: `showPage`, `updateActiveNavItem`, `updateHomePageData`, `setupEventListeners`, `resetTransferForm` (its `0.00` appears only as `BlankAmount`), `createTransactionElement` and the rendering of `updateConfirmationPage`. Only the name truncation of the confirmation page is modelled.
- `prompt`, `alert` and `confirm` are inputs or outcomes. A prompt's reply is an `Option<int>`, a confirmation a `bool`, and an alert is the `Rejection` reported.
- `localStorage` and JSON are one slot holding an `Option<Account>`. Serialisation is taken to be exact, so a record read back equals the record saved.
- The `Date` object and the clock are replaced by a `Moment` passed in. The same `Moment` stamps both the date and the time.
- Floating point is not modelled:
  - Amounts are exact minor units.
  - `toFixed(2)` rounding of amounts with more than two decimals is not modelled, nor the rounding drift of float sums.
  - Exponent notation from 1e21 upward is not modelled.
- `parseFloat` is not modelled. Its leniency (leading blanks, trailing garbage, `Infinity`) is replaced by the caller passing the number read. `ReadAmount` reads only the two-decimal texts that the form itself shows.
- Characters are Dafny `char`s rather than UTF-16 code units. The string order of the sort agrees for the dates it compares, which are ASCII. The 10-character truncation agrees only for names without characters outside the Basic Multilingual Plane: for such a character (an emoji, say) `length` and `substring` count two code units, so the page cuts at a different place and may split a surrogate pair.
- Rendering a negative remaining balance or amount in the list (the `+` prefix of `createTransactionElement`) is not modelled.
- `Format.FormatDate` and `Format.FormatTime` state only the stamp's length in their own contracts. Their field-by-field contents are stated by `DateStampFields` and `TimeStampFields`.
