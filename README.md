# Smartphone recommender: a Dafny model of its core

The application is a Streamlit page (`app.py`) that recommends phones from a
CSV catalogue. Under the page there is a small recommendation core, and this
project models that core and proves its properties:

- **Field cleaning** (`load_data`, app.py:15-20):
  - the brand is the first whitespace-delimited token of the model name;
  - the price text loses every `₹` and `,` before `float()` reads it;
  - RAM and battery are the first run of decimal digits in their text.
- **Scorer** (`score_phone`, app.py:51-85). The score is the sum of four terms:
  - a budget term;
  - RAM as a share of the catalogue maximum, doubled;
  - battery as a share of the catalogue maximum;
  - a camera term from the parser at app.py:71, which splits on `+`, keeps the text before `MP`, strips it, reads it as a number and averages.

  The sum is then scaled once by the factor for the chosen priority.
- **Ranker** (`recommend`, app.py:90-103):
  - keep the phones whose price lies in the inclusive budget;
  - when brands were chosen, keep only those brands;
  - score the survivors, sort them by score with the highest first, and return the first three.

Modules, one file each:

- `common.dfy` (`Common`): `Option`/`Result`, and the character classes: Python's `str.isspace` set, the narrower set `float()` trims, and ASCII digits. Also the value of a digit string.
- `text.dfy` (`Text`): `str.strip()`, `str.split(sep)` and its inverse `join`, `s.split('MP')[0]`, and `float()`: its own trimming, then a plain decimal numeral with an optional sign.
- `catalogue.dfy` (`Catalogue`): raw and cleaned rows, the three cleaning rules, loading a whole table, and the column maximum pandas' `max` computes.
- `scoring.dfy` (`Scoring`): the four terms, the priority factor, the score as a function, and `score_phone` as the accumulator method it is in the source.
- `ranking.dfy` (`Ranking`): the two filters, scoring, a sort by descending score, and the top three.
- `worked_cases.dfy` (`WorkedCases`): one catalogue row and one phone worked through the model.

Cells of the downloaded table are `Option<string>`: `None` stands for a missing (NaN) or non-string cell. Numbers are exact `real`.

The RAM and battery maxima are those of the whole catalogue, as at app.py:62 and app.py:66, not those of the filtered rows. The scorer and the ranker take them as parameters, and `Catalogue.MaxPresent` computes them.

### Behaviour of the code worth noting

- **Price that is not a number.** `astype(float)` raises (app.py:18), so the whole load fails rather than leaving the price missing. `Catalogue.CleanPrice` returns `Err(PriceNotNumber)`, and `Catalogue.LoadCatalogue` fails with it.
- **Separators after a price.** `float()` trims tab, line feed, vertical tab, form feed, carriage return, space and the non-ASCII whitespace, but not the separators U+001C-U+001F, which `str.strip()` does cut. A price such as "5" followed by U+001F therefore fails the load (`Catalogue.PriceKeepsSeparators`).
- **Model name that is all whitespace.** `str(x).split()[0]` raises IndexError (app.py:15), so the load fails with `EmptyModelName`. The brand column is computed before the price column, so this error is the one reported when both occur.
- **No guard on the maxima.** The RAM and battery terms divide by the catalogue maximum with no check for zero (app.py:62, app.py:66).
  - A column with no present value never reaches the division, because `pd.isna` skips every row first (app.py:61, app.py:65). Any positive number can then stand for its maximum without changing a score (`Scoring.MissingColumnAnyScale`); `Ranking.ColumnScale` passes 1.
  - A maximum of 0 means every present value is 0, since the counts are digit runs. The division is then 0/0 and the term is NaN. The model requires positive maxima and does not model NaN.
- **Camera segment that does not parse.** The list comprehension sits inside one `try` (app.py:70-75), so one bad segment cancels the whole camera term rather than being skipped. `Scoring.CameraTerm` is all-or-nothing.
- **Ties.** `sort_values` uses pandas' default quicksort, which is not stable (app.py:102). `Ranking.Recommend` promises no order among equal scores.

## Model

| member | source | states |
|---|---|---|
| Catalogue.FirstToken | app.py:15 | `split()[0]` exists exactly when the text is not all whitespace; the token is non-empty and holds no whitespace |
| Catalogue.FirstTokenSplit | app.py:15 | the token returned is preceded only by whitespace and followed by whitespace or the end of the text |
| Catalogue.FirstTokenOf | app.py:15 | conversely, a non-blank token with only whitespace before it and whitespace or nothing after it is the one returned |
| Catalogue.DeriveBrand | app.py:15 | a non-string model gives a missing brand; a string model fails the load, with `EmptyModelName`, exactly when it is all whitespace; otherwise the brand is `FirstToken` of the name, the first whitespace-separated token, which is non-empty and holds no whitespace |
| Catalogue.DropPriceNoise | app.py:18 | deleting `₹` and `,` never lengthens the text and leaves neither character in it |
| Catalogue.DropPriceNoiseAppend | app.py:18 | the deletion works piece by piece: cleaning `a + b` is cleaning `a` then `b` |
| Catalogue.DropPriceNoiseKeeps | app.py:18 | text without `₹` or `,` is kept exactly, every character in order |
| Catalogue.DropPriceNoiseIdempotent | app.py:18 | cleaning twice equals cleaning once |
| Catalogue.RupeePrice | app.py:18 | `"₹" + a + "," + b` with digit strings `a`, `b` loads as the number `a·10^|b| + b` |
| Catalogue.CleanPrice | app.py:18 | a missing price stays missing; a price text fails the load, with `PriceNotNumber`, exactly when `float()` cannot read it once `₹` and `,` are deleted; otherwise the price is present and is `ParseFloat` of that cleaned text |
| Catalogue.PriceKeepsSeparators | app.py:18 | digits followed by one of U+001C-U+001F: `strip()` would cut the separator, but the price still fails the load because `float()` keeps it |
| Catalogue.CleanPriceOfDigits | app.py:18 | price text that cleans to a digit string loads as the number it spells |
| Catalogue.FirstDigitRun | app.py:19-20 | `extract('(\d+)')` finds nothing exactly when the text holds no digit; what it finds is a non-empty digit string |
| Catalogue.FirstDigitRunSplit | app.py:19-20 | the run found has no digit before it and a non-digit or the end after it, so it is the first maximal run |
| Catalogue.FirstDigitRunOf | app.py:19-20 | conversely, a digit run with no digit before it and none right after it is the run found |
| Catalogue.ExtractCount | app.py:19-20 | the RAM and battery value is missing exactly when the cell is missing or holds no digit, and is never negative |
| Catalogue.ExtractCountOf | app.py:19-20 | "8 GB RAM" and the like load as the number their first digit run spells |
| Catalogue.LoadCatalogue | app.py:15-20 | loading succeeds exactly when every row cleans, row by row and in order; on failure the error is the brand error exactly when some row's model name is blank |
| Catalogue.CleanRow | app.py:15-20 | a row cleans exactly when its brand and its price clean; a blank model name is reported before a bad price; a cleaned row keeps model and camera and carries the cleaned brand, price, RAM and battery |
| Catalogue.MaxPresent | app.py:62 | `df[col].max()` skips missing values: it is missing only when all are missing, bounds every present value and is one of them |
| Text.StripSlice | app.py:71 | `strip()`, and `float()`'s own trimming, keep a slice of the input with only characters of their class cut on both sides, and the slice neither starts nor ends with one |
| Text.StripPadded | app.py:71 | trimming text padded with characters of the class gives back the text, when the text has none at either end |
| Text.FloatStripOfStripped | app.py:71 | `float()`'s own trimming leaves text that `strip()` has already trimmed unchanged |
| Text.Split | app.py:71 | `split('+')` yields at least one segment and no segment holds `+`; joining the segments with `+` gives back the text |
| Text.SplitJoin | app.py:71 | splitting undoes joining, for segments free of the separator |
| Text.JoinInjective | app.py:71 | segments free of the separator are determined by their join |
| Text.BeforeMP | app.py:71 | `split('MP')[0]` is the prefix before the first "MP", or all of the text when it holds none |
| Text.ParseFloat | app.py:18 | `float()` on a text: a text of whitespace alone raises, and any text read as a number holds a digit |
| Text.ParseDecimal | app.py:71 | as `float()` here and at app.py:18, an accepted numeral holds only a leading sign, digits and points, with at least one digit; without a leading `-` its value is not negative |
| Text.ParseDecimalOf | app.py:71 | as `float()` here and at app.py:18, a numeral made of an optional sign, digits w, and optionally a point and digits f, with at least one digit, reads as w plus f divided by 10 to the number of digits of f, negated after a `-` |
| Text.ParseDecimalShape | app.py:71 | conversely, every text `float()` accepts here is such a numeral, and its value is that number |
| Text.ParseDigits | app.py:71 | as `float()` here and at app.py:18, a plain digit string reads as the number it spells |
| Scoring.SegmentValues | app.py:71 | the list comprehension gives a value for every segment, in order, or nothing as soon as one segment fails |
| Scoring.SegmentValue | app.py:71 | one lens segment is read by `float()` on the stripped text before `MP`; after `strip()`, `float()`'s own trimming changes nothing, so the reading is the numeral reading of that stripped text |
| Scoring.SegmentValuesOf | app.py:71 | segments that each read as a given value read as that whole list |
| Scoring.SegmentOfDigits | app.py:71 | a segment "<digits>MP" reads as its number |
| Scoring.LabelOfDigits | app.py:71 | a label "<digits>MP" holds no `+` and reads as its number |
| Scoring.CameraTermOfSegments | app.py:69-75 | a camera text made of `+`-free segments that each read as a number adds the mean of those numbers divided by 100 |
| Scoring.CameraTermOfLabels | app.py:69-75 | a camera text "d1MP+…+dnMP" adds the mean of d1…dn divided by 100 |
| Scoring.CameraTermPartialFailure | app.py:69-75 | one segment that fails to parse makes the whole camera term 0, whatever the others hold |
| Scoring.CameraTerm | app.py:69-75 | a missing camera cell adds nothing; a non-zero camera term comes only from a text whose every `+` segment reads as a number |
| Scoring.RamTerm | app.py:61-62 | a missing RAM value adds nothing; a RAM value between 0 and the column maximum adds between 0 and 2 |
| Scoring.BatteryTerm | app.py:65-66 | a missing battery value adds nothing; a battery value between 0 and the column maximum adds between 0 and 1 |
| Scoring.BudgetTerm | app.py:55-58 | +1.0 exactly when the price is present and lies in the inclusive budget, -0.5 otherwise |
| Scoring.Multiplier | app.py:78-83 | the priority factor lies between 1 and 1.2, and is 1 exactly for Display and Balanced |
| Scoring.Score | app.py:51-85 | Display and Balanced return the sum of the four terms unscaled |
| Scoring.ScoreIsScaledSum | app.py:78-85 | the score is the priority factor times the sum of the four terms |
| Scoring.PriorityNeverLowers | app.py:78-83 | no priority lowers a sum that is not negative |
| Scoring.ScorePhone | app.py:51-85 | the accumulator, built with `+=`, `-=` and a final `*=`, ends equal to `Score`, the priority factor times the sum of the budget, RAM, battery and camera terms |
| Scoring.PriorityFactor | app.py:78-83 | the if-chain on the priority, which multiplies by 1.2, 1.1 or 1.15 or leaves the sum unchanged, multiplies by `Multiplier` and yields `Score` |
| Scoring.BudgetSwing | app.py:55-58 | a price inside the inclusive budget is worth exactly 1.5 more than a missing price; one outside it is worth exactly the same as a missing price |
| Scoring.PriorityScalesOnce | app.py:78-85 | the factor is applied once to the whole sum: Balanced is the raw sum, Display equals Balanced, and Performance, Camera and Battery are 1.2×, 1.1× and 1.15× Balanced |
| Scoring.MissingCountsAsZero | app.py:61-66 | a missing RAM or battery value scores exactly like a present 0 |
| Scoring.ScoreMonotoneInRam | app.py:61-85 | with the other fields and the maxima fixed, more RAM never lowers the score under any priority |
| Scoring.RawMonotoneInRam | app.py:61-62 | more RAM never lowers the sum before scaling |
| Scoring.ScoreMonotoneInBattery | app.py:65-85 | with the other fields and the maxima fixed, more battery never lowers the score under any priority |
| Scoring.RawMonotoneInBattery | app.py:65-66 | more battery never lowers the sum before scaling |
| Scoring.MissingCameraLikeUnreadable | app.py:69-75 | a phone with no camera text scores exactly like one whose camera text has a segment that cannot be read |
| Scoring.MissingColumnAnyScale | app.py:61-66 | when a column has no present value in the catalogue, the maximum passed for it changes no catalogue phone's score |
| Scoring.NormalisedTermsBounded | app.py:61-66 | with maxima taken over the whole catalogue, every catalogue phone's RAM term lies in [0, 2] and its battery term in [0, 1] |
| Ranking.Filter | app.py:92-96 | boolean-mask selection keeps every row that passes, as often as it occurs, and no other |
| Ranking.Candidates | app.py:92-96 | the scored rows are exactly the catalogue rows whose price lies in the inclusive budget and, when brands were chosen, whose brand is among them |
| Ranking.ScoreAll | app.py:99 | the score column gives each candidate, in order, its `score_phone` value |
| Ranking.InsertByScore | app.py:102 | inserting into a list sorted by descending score keeps it sorted and adds exactly that row |
| Ranking.InsertedBelowHead | app.py:102 | a row inserted below the head of a sorted list keeps the whole list sorted |
| Ranking.SortByScore | app.py:102 | `sort_values(by="score", ascending=False)` gives a permutation of its input, sorted by descending score |
| Ranking.ColumnScale | app.py:61-66 | the divisor used for a column is positive, is the column maximum when there is one, and bounds every present value |
| Ranking.RecommendFromCatalogue | app.py:90-103 | `recommend` with the maxima of the whole catalogue returns the top `min(3, candidates)` rows: sorted by descending score, each a catalogue phone in budget and of an allowed brand scored with those maxima, drawn from the scored candidates, with no candidate left out scoring above the last row |
| Ranking.HeadOfSorted | app.py:102 | `head(k)` of a sorted list is sorted, is drawn from it, and nothing left out scores above its last row |
| Ranking.ScoredRows | app.py:92-99 | rows drawn from the scored candidates are catalogue phones that pass both filters, each carrying its own score |
| Ranking.Recommend | app.py:90-103 | returns `min(3, candidates)` rows, each a catalogue phone in budget and of an allowed brand with its own score, sorted by descending score and drawn from the scored candidates, with no candidate left out scoring above the last row |
| Ranking.RecommendedWithinBudget | app.py:92-99 | every row returned earned the +1.0 budget term of app.py:55-56, since filtering comes before scoring |
| Ranking.BrandFilterScope | app.py:94-96 | with no brand chosen every in-budget phone is a candidate; with brands chosen an in-budget phone is a candidate exactly when its brand is among them |
| WorkedCases.TripleCameraTerm | app.py:71-73 | "50MP+8MP+2MP" gives a camera term of 0.2 |
| WorkedCases.BalancedExample | app.py:51-85 | an 8 GB, 5000 mAh phone with "50MP+8MP+2MP" and maxima 16 and 6000 scores 91/30 on Balanced when priced 18000 within 10000-30000, and 23/15 when priced 40000 |
| WorkedCases.CleanedRow | app.py:15-20 | the row "Samsung Galaxy M14", "₹12,999", "4 GB RAM", "6000 mAh" cleans to brand "Samsung", price 12999, RAM 4 and battery 6000 |
| WorkedCases.SampleBrand | app.py:15 | "Samsung Galaxy M14" has brand "Samsung" |
| WorkedCases.SamplePrice | app.py:18 | "₹12,999" loads as 12999 |
| WorkedCases.SampleRam | app.py:19 | "4 GB RAM" loads as 4 |
| WorkedCases.SampleBattery | app.py:20 | "6000 mAh" loads as 6000 |

## Left out

- The Streamlit page is not modelled: page setup, widgets, buttons, spinners, markdown and f-string output (app.py:29-46, app.py:105-186). It is presentation, with no logic to state.
- The chat history in `st.session_state` and `chat_response` are not modelled. `chat_response` only calls `recommend` again with the current widget values and formats text.
- The download `pd.read_csv(DATA_URL)` and its `@st.cache_data` memoisation are not modelled (app.py:7-11, app.py:24). They are I/O and a foreign cache; the raw rows are the input of `Catalogue.LoadCatalogue`.
- The column-name normalisation at app.py:12 is not modelled. It acts on the frame's schema; the model's rows already have lower-case fields.
- The unused free-text input `user_text` (app.py:42) and the pass-through `priority_map` (app.py:140) are not modelled.
- Scoring.ScorePhone: uses exact `real` arithmetic, so IEEE rounding of the weighted sum is not modelled. Neither are the display-time `round` and `int` casts (app.py:119-121, app.py:151).
- Text.ParseDecimal: accepts only an optional sign followed by digits with an optional decimal point. Python's `float()` also accepts exponents, `inf`, `nan`, digit-group underscores and non-ASCII digits; a cell written that way is rejected by the model but read by the source.
- Catalogue.FirstDigitRun: matches ASCII digits only. Python's `\d` also matches other Unicode decimal digits.
- Catalogue.CleanPrice: takes the price cell as text. A price column that pandas already read as numbers passes through `replace` unchanged; the model expresses that case only as text.
- Catalogue.LoadCatalogue: a cell that is not a string is `None`, the same as a missing cell. The source's `.str` accessor raises on a column with no strings at all; that failure is not modelled.
- Ranking.Recommend: promises no order among equal scores, because pandas' default quicksort is not stable. The model sorts by insertion, which is one of the orders the source may produce.
- A zero maximum is left out: the scorer and the ranker require positive maxima. A zero RAM or battery maximum means every present value of that column is 0, and the source then computes 0/0, which is NaN; the model has no NaN. A column with no present value needs no exclusion, because the source never divides for it (app.py:61, app.py:65).
