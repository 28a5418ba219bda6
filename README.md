# Outfit archive: date-keyed photo store and day navigation

A Dafny model of the logic inside the `StoriesArchive` screen of the cloday
outfit journal (`app/app/index.tsx`). The screen keeps a map from calendar
dates (`YYYY-MM-DD`) to photo URIs, mirrors it and its size into the device's
key-value store, records the install date once, lets the user step through
days, and marks the calendar.

- `wrappers.dfy`: `Option` and `Result`.
- `decimal.dfy`: zero-padded digit fields and JavaScript's `String(n)`, each
  with the lemma that reading it back gives the number.
- `iso_date.dfy`: proleptic Gregorian dates. `ToIso` is `toISO`. `Parse` is
  `new Date(iso)` on the date-only forms. `AddDays` is `addDays`. All three
  read and write dates in UTC, as ECMAScript defines them: month 01-12, day
  01-31, and the `Date` range of 100,000,000 days either side of 1970-01-01.
  ECMAScript gives no rule for a day past the end of its month. The model lets
  it roll into the next month. An invalid date makes `toISOString` throw,
  and `AddDays` returns `Failure` for it. Days move by single-day steps
  (`Next`/`Prev`, composed by `Shift`).
- `archive.dfy`: the class `StoriesArchive`. Its fields are `selectedDate`,
  `images` and a `storage` snapshot. It has one method per effect and handler.
  `MarkedDates` is the calendar marking and `TapSide` is the single-tap rule.
  The class keeps the invariant `Mirrored()`: the stored `dateImages` is
  `images` and the stored `outfitCount` is `String(countOutfitDays(images))`.

`takePicture` stores the camera's URI as it is. The initial selection is the literal string
`"null"`, not an empty value, and the model keeps that.

## Model

| member | source | states |
|---|---|---|
| `Decimal.ValueOfPadded` | app/app/index.tsx:26 | a zero-padded date field written by `toISOString` reads back as the same number |
| `Decimal.ValueOfNumberString` | app/app/index.tsx:111 | `String(count)`, the stored `outfitCount`, reads back as the count |
| `Decimal.NumberString` | app/app/index.tsx:89 | `String(count)` for a count is a non-empty digit string with no leading zero unless it is "0" |
| `Decimal.NumberStringInjective` | app/app/index.tsx:111 | two stored counts are the same string exactly when the counts are equal |
| `IsoDate.Next` | app/app/index.tsx:30 | one day forward is a valid date, later than the start, with no valid date in between (month lengths, leap years, year end) |
| `IsoDate.Prev` | app/app/index.tsx:30 | one day back is a valid date, earlier than the start, with no valid date in between |
| `IsoDate.PrevNext` | app/app/index.tsx:30 | a step forward and a step back undo each other, in both orders |
| `IsoDate.Shift` | app/app/index.tsx:30 | `setDate(getDate() + k)` moves a valid date to a valid date |
| `IsoDate.ShiftShift` | app/app/index.tsx:30 | moving `a` days and then `b` days is moving `a + b` days |
| `IsoDate.ShiftWithinMonth` | app/app/index.tsx:29 | within a month, moving from the first day by `k` gives day `k + 1`, so `new Date` reads a date with an in-month day as that date |
| `IsoDate.ToIso` | app/app/index.tsx:26 | `toISO` is defined only for dates a `Date` can hold (otherwise `toISOString` throws); it writes 10 characters for years 0-9999 and 13 otherwise (a sign and six year digits), always ending `-MM-DD` |
| `IsoDate.MakeDate` | app/app/index.tsx:29 | a date read from its fields is valid and inside the `Date` range, or it is invalid |
| `IsoDate.Parse` | app/app/index.tsx:29 | `new Date(iso)` yields only valid dates inside the `Date` range |
| `IsoDate.ParseToIso` | app/app/index.tsx:26-29 | `new Date(toISO(d))` gives back `d` for every date a `Date` can hold, four-digit and expanded years alike |
| `IsoDate.ToIsoIsIsoDate` | app/app/index.tsx:26 | every string `toISO` writes is a canonical date string |
| `IsoDate.ToIsoShape` | app/app/index.tsx:26 | for years 0-9999 `toISO` writes `YYYY-MM-DD` (section 5.2.1.1 of ISO 8601:2004), and each field holds the date's own year, month and day |
| `IsoDate.AddDays` | app/app/index.tsx:28-32 | `addDays` succeeds exactly when the input is a date and the moved date is in range; its result is then a canonical date string whose date is the input moved by `delta` days |
| `IsoDate.AddDaysAddDays` | app/app/index.tsx:28-32 | after a successful `addDays`, a second call equals one call with the summed delta, failing exactly when that one fails |
| `IsoDate.AddDaysZero` | app/app/index.tsx:28-32 | `addDays(d, 0) == d` for every canonical date string |
| `IsoDate.PrevInRange` | app/app/index.tsx:30-31 | the day before an in-range date is in range unless it is the first day a `Date` can hold |
| `IsoDate.NextInRange` | app/app/index.tsx:30-31 | the day after an in-range date is in range unless it is the last day a `Date` can hold |
| `IsoDate.BackThenForward` | app/app/index.tsx:151-152 | `addDays(addDays(d, -1), 1) == d`; the back step fails only on the first representable day |
| `IsoDate.ForwardThenBack` | app/app/index.tsx:151-152 | `addDays(addDays(d, 1), -1) == d`; the forward step fails only on the last representable day |
| `Archive.CountOutfitDays` | app/app/index.tsx:27 | the count of outfit days is zero exactly when the map is empty |
| `Archive.CountAfterStore` | app/app/index.tsx:27 | storing a photo for a date raises `countOutfitDays` by one exactly when the date had none |
| `Archive.CountAfterDelete` | app/app/index.tsx:27 | deleting a date lowers `countOutfitDays` by one exactly when the date was present |
| `Archive.MarkedDates` | app/app/index.tsx:168-188 | the marked days are the map's days plus the selected day (when not ""); the selected day is black, every other day red |
| `Archive.MarkedRed` | app/app/index.tsx:168-188 | a day is red exactly when it has an outfit and is not the selected day |
| `Archive.SelectedOverridesOutfit` | app/app/index.tsx:179-187 | the selected day's black mark wins over its red outfit mark |
| `Archive.TapSide` | app/app/index.tsx:217-225 | an unmeasured preview (width 0) ignores taps; a tap left of the middle goes back a day, any other tap goes forward |
| `Archive.TapMirror` | app/app/index.tsx:220-224 | mirrored taps left and right of the middle go in opposite directions |
| `Archive.InitialSelectionIsNoDate` | app/app/index.tsx:35 | the initial selection `"null"` passes the empty-date guard, but stepping from it throws |
| `Archive.StoriesArchive.constructor` | app/app/index.tsx:35-36 | before any effect, the selection is `"null"`, the map is empty and storage is as persisted |
| `Archive.StoriesArchive.Persist` | app/app/index.tsx:104-113 | the effect on `images` writes the map and its day count, and after it the store mirrors `images` |
| `Archive.StoriesArchive.Load` | app/app/index.tsx:79-97 | a stored map replaces `images` and writes its count; unreadable text stops the load; `installDate` is written only when absent or empty |
| `Archive.StoriesArchive.Mount` | app/app/index.tsx:74-113 | after mounting, today is selected and the store mirrors `images`. A missing install date is set to `nowStamp` unless the stored map is unreadable, in which case `installDate` is left as it was. An existing install date is never overwritten. Every other stored key is unchanged |
| `Archive.StoriesArchive.TakePicture` | app/app/index.tsx:115-134 | a photo is saved exactly when a date is selected, permission is "granted", the camera was not cancelled and returned a non-empty URI. Saving sets `images[selectedDate]` and leaves other days unchanged. Storage changes only in `dateImages` and `outfitCount`. A re-capture keeps the count. Any other outcome changes nothing |
| `Archive.StoriesArchive.Delete` | app/app/index.tsx:238-245 | swipe-delete removes exactly that date, the count drops by one iff it was present, and storage changes only in `dateImages` (the new map) and `outfitCount` |
| `Archive.StoriesArchive.ClearAll` | app/app/index.tsx:44-69 | on confirm, the map is empty and storage changes only in `dateImages` (the empty map) and `outfitCount` ("0"); on cancel, nothing changes. The screen's only trigger for this handler is commented out |
| `Archive.StoriesArchive.PressDay` | app/app/index.tsx:166 | a pressed calendar day becomes the selection |
| `Archive.StoriesArchive.GoToday` | app/app/index.tsx:150 | `goToday` selects today's canonical date string |
| `Archive.StoriesArchive.GoPrevDay` | app/app/index.tsx:151 | `goPrevDay` selects the previous day when `addDays` succeeds and keeps the selection when it throws |
| `Archive.StoriesArchive.GoNextDay` | app/app/index.tsx:152 | `goNextDay` selects the next day when `addDays` succeeds and keeps the selection when it throws |
| `Archive.StoriesArchive.SingleTap` | app/app/index.tsx:217-225 | a single tap does nothing on an unmeasured preview, otherwise moves one day back or forward by the side tapped, and keeps the selection when that step throws |
| `Archive.StoriesArchive.DoubleTap` | app/app/index.tsx:208-212 | a double tap selects today |
| `Archive.TapLeftThenRight` | app/app/index.tsx:217-225 | from any canonical date except the first a `Date` can hold, a tap anywhere on the left half followed by a tap anywhere on the right half returns to the day shown before |

## Left out

- Asynchronous storage: every `AsyncStorage` call is a synchronous update of the `storage` snapshot, made in the order the source issues it. Interleavings of in-flight writes are not modelled.
- The empty-map persist of the first render is not modelled as its own write. The load's read is issued before it, and the effect's later write covers it.
- Camera permission and capture (`expo-image-picker`) are parameters: the permission string and a result that is cancelled or carries an optional first URI.
- JSON: `Json(m)` stands for the text `JSON.stringify(m)` writes, read back exactly. A non-empty stored string that is not such text is taken to make `JSON.parse` throw. Valid JSON that is not an object is not modelled separately.
- Time zones: `addDays` is modelled in UTC. The source reads the date in UTC but steps with the local-time `getDate`/`setDate`. Near a daylight-saving change, the local step can land on a different UTC calendar day than the model's step. The model does not capture this.
- The RangeError that `addDays` throws escapes the gesture callback as an uncaught error. The model reduces it to `moved == false`, with the selection unchanged.
- `new Date()` is the `today` parameter (a date a `Date` can hold). The install timestamp `new Date().toISOString()` is the `nowStamp` parameter.
- IsoDate.Parse: a day past the end of its month (`2023-02-31`) rolls into the next month. ECMAScript does not fix this and engines differ; some return an invalid date. The screen never steps from such a string.
- IsoDate.Parse: only the date-only forms `YYYY-MM-DD` and `±YYYYYY-MM-DD` are read. Other forms (`YYYY`, `YYYY-MM`, date-times) and engine-specific fallback parsing are read as invalid dates. The screen only steps from strings that `toISO` or the calendar produced.
- `ClearAll` models `clearAllImages`, but the screen cannot currently reach it: its only trigger, a development button, is commented out (index.tsx:199-205).
- Background colour: its load (index.tsx:98-100) and the settings callback (index.tsx:272-275) are theming, not part of the store.
- Rendering: the image modal, screen switching, alerts' text, the calendar widget, gradients, gesture wiring and styles are presentation.
- `SwipeableImage.tsx`: the save-to-gallery action (a foreign call) and the one-shot image-height latch (layout). Its delete confirmation reaches `Delete` only on "Delete".
