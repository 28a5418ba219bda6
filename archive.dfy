/**
  The `StoriesArchive` screen of app/app/index.tsx: the date-keyed outfit map
  (`images`), the selected day, and the device key-value store that mirrors
  them (`dateImages`, `outfitCount`, `installDate`).

  Storage writes are modelled as synchronous updates of a snapshot, made at
  the points where the source issues them, in the order it issues them.
 */
module Archive {
  import opened Wrappers
  import opened Decimal
  import opened IsoDate

  /** `ImageMap`: ISO date string to photo URI. */
  type ImageMap = map<string, string>

  /**
    A value held in the key-value store. `Json(m)` is the text
    `JSON.stringify(m)` writes for a map, which `JSON.parse` reads back as
    exactly `m`; `Text(s)` is any other string.
   */
  datatype Stored = Json(entries: ImageMap) | Text(text: string)

  /** How `getItem` followed by a JavaScript truthiness test sees a key: present and not "". */
  predicate Truthy(storage: map<string, Stored>, key: string) {
    key in storage && storage[key] != Text("")
  }

  /** `countOutfitDays`: the number of keys of the map. */
  function CountOutfitDays(m: ImageMap): (n: nat)
    ensures n == 0 <==> m == map[]
  {
    |m.Keys|
  }

  /** Storing a photo for a date adds one day exactly when the date had none. */
  lemma CountAfterStore(m: ImageMap, date: string, uri: string)
    ensures CountOutfitDays(m[date := uri]) == CountOutfitDays(m) + (if date in m then 0 else 1)
  {
    assert m[date := uri].Keys == m.Keys + {date};
  }

  /** Deleting a date removes one day exactly when the date had one. */
  lemma CountAfterDelete(m: ImageMap, date: string)
    ensures CountOutfitDays(m - {date}) == CountOutfitDays(m) - (if date in m then 1 else 0)
  {
    assert (m - {date}).Keys == m.Keys - {date};
  }

  /** The styling `Calendar` gets for one day. */
  datatype Mark = Mark(selected: bool, selectedColor: string, selectedTextColor: string)

  /** A day that has an outfit. */
  const OutfitMark := Mark(true, "#ff0000ff", "white")
  /** The selected day. */
  const SelectedMark := Mark(true, "black", "white")

  /**
    `markedDates`: every day of the map marked red, then the selected day (when
    it is not "") marked black, the later spread overriding the earlier.
   */
  function MarkedDates(images: ImageMap, selectedDate: string): (marks: map<string, Mark>)
    ensures marks.Keys == images.Keys + (if selectedDate != "" then {selectedDate} else {})
    ensures forall day :: day in marks ==>
      marks[day] == (if selectedDate != "" && day == selectedDate then SelectedMark else OutfitMark)
  {
    var outfits := map day | day in images.Keys :: OutfitMark;
    if selectedDate != "" then outfits[selectedDate := SelectedMark] else outfits
  }

  /** A day is drawn red exactly when it has an outfit and is not the (non-empty) selected day. */
  lemma MarkedRed(images: ImageMap, selectedDate: string, day: string)
    ensures day in MarkedDates(images, selectedDate) && MarkedDates(images, selectedDate)[day] == OutfitMark
      <==> day in images && (selectedDate == "" || day != selectedDate)
  {
  }

  /** The selected day is drawn black even when it has an outfit. */
  lemma SelectedOverridesOutfit(images: ImageMap, selectedDate: string)
    requires selectedDate != "" && selectedDate in images
    ensures MarkedDates(images, selectedDate)[selectedDate] == SelectedMark
    ensures MarkedDates(images, selectedDate)[selectedDate] != OutfitMark
  {
  }

  /** Where a single tap on the preview sends the selection. */
  datatype TapMove = Stay | Back | Forward

  /**
    The single-tap rule: nothing while the preview has not been measured
    (width 0), the previous day for a tap on the left half, the next day
    otherwise.
   */
  function TapSide(x: real, previewWidth: real): (move: TapMove)
    ensures move == Stay <==> previewWidth == 0.0
    ensures move == Back <==> previewWidth != 0.0 && 2.0 * x < previewWidth
  {
    if previewWidth == 0.0 then Stay
    else if x < previewWidth / 2.0 then Back
    else Forward
  }

  /** On a measured preview, taps at mirrored points left of centre and right of centre go opposite ways. */
  lemma TapMirror(x: real, previewWidth: real)
    requires previewWidth > 0.0 && 2.0 * x < previewWidth
    ensures TapSide(x, previewWidth) == Back
    ensures TapSide(previewWidth - x, previewWidth) == Forward
  {
  }

  /**
    The selection before the first effect runs, the string "null", passes the
    capture guard (it is not "") but is no date, so stepping from it throws.
   */
  lemma InitialSelectionIsNoDate()
    ensures "null" != ""
    ensures AddDays("null", -1).Failure? && AddDays("null", 1).Failure?
  {
  }

  /** What the user sees after pressing the camera button. */
  datatype CaptureOutcome = PickDateFirst | PermissionRequired | Cancelled | NoPhoto | Saved

  /** `launchCameraAsync`'s result: cancelled, or the first asset's URI when there is one. */
  datatype CameraResult = Canceled | Taken(firstUri: Option<string>)

  /** How the load effect ended. */
  datatype LoadOutcome = Loaded | NothingStored | Unreadable

  class StoriesArchive {
    var selectedDate: string
    var images: ImageMap
    /** The device key-value store, as seen by this screen. */
    var storage: map<string, Stored>

    /** The stored map and count agree with `images`. */
    predicate Mirrored()
      reads this
    {
      && "dateImages" in storage && storage["dateImages"] == Json(images)
      && "outfitCount" in storage && storage["outfitCount"] == Text(NumberString(CountOutfitDays(images)))
    }

    predicate Installed()
      reads this
    {
      Truthy(storage, "installDate")
    }

    /** First render, before any effect: the selected date is the literal string "null". */
    constructor (persisted: map<string, Stored>)
      ensures selectedDate == "null" && images == map[] && storage == persisted
    {
      selectedDate := "null";
      images := map[];
      storage := persisted;
    }

    /** The effect on `images`: write the map and its day count. */
    method Persist()
      modifies this`storage
      ensures storage == old(storage)["dateImages" := Json(images)]
                                     ["outfitCount" := Text(NumberString(CountOutfitDays(images)))]
      ensures Mirrored()
    {
      storage := storage["dateImages" := Json(images)];
      storage := storage["outfitCount" := Text(NumberString(CountOutfitDays(images)))];
    }

    /**
      The load effect. A stored map replaces `images` and its count is written;
      a non-empty stored text that is not a map makes `JSON.parse` throw and
      ends the effect there. Otherwise the install time is written when no
      install date is stored.
     */
    method Load(nowStamp: string) returns (outcome: LoadOutcome)
      modifies this`images, this`storage
      ensures outcome == Unreadable <==>
        Truthy(old(storage), "dateImages") && old(storage)["dateImages"].Text?
      ensures outcome == Loaded <==> "dateImages" in old(storage) && old(storage)["dateImages"].Json?
      ensures outcome == Loaded ==> images == old(storage)["dateImages"].entries
      ensures outcome != Loaded ==> images == old(images)
      ensures outcome == Unreadable ==> storage == old(storage)
      ensures outcome != Unreadable ==>
        (storage ==
          (if outcome == Loaded then old(storage)["outfitCount" := Text(NumberString(CountOutfitDays(images)))]
           else old(storage))
          + (if Truthy(old(storage), "installDate") then map[] else map["installDate" := Text(nowStamp)]))
    {
      if Truthy(storage, "dateImages") {
        match storage["dateImages"]
        case Text(_) =>
          return Unreadable;
        case Json(parsed) =>
          images := parsed;
          storage := storage["outfitCount" := Text(NumberString(CountOutfitDays(parsed)))];
          outcome := Loaded;
      } else {
        outcome := NothingStored;
      }
      if !Truthy(storage, "installDate") {
        storage := storage["installDate" := Text(nowStamp)];
      }
    }

    /**
      Mounting the screen: the first effect selects today, the load effect
      runs, and the effect on `images` persists whatever `images` then holds.
     */
    method Mount(today: Date, nowStamp: string) returns (outcome: LoadOutcome)
      requires Valid(today) && InRange(today) && nowStamp != ""
      modifies this
      ensures selectedDate == ToIso(today)
      ensures Mirrored()
      ensures outcome == Loaded <==> "dateImages" in old(storage) && old(storage)["dateImages"].Json?
      ensures outcome == Unreadable <==> Truthy(old(storage), "dateImages") && old(storage)["dateImages"].Text?
      ensures outcome == Loaded ==> images == old(storage)["dateImages"].entries
      ensures outcome != Loaded ==> images == old(images)
      ensures outcome != Unreadable ==> Installed()
      ensures outcome == Unreadable ==>
        ("installDate" in storage <==> "installDate" in old(storage))
        && ("installDate" in storage ==> storage["installDate"] == old(storage)["installDate"])
      ensures outcome != Unreadable && !Truthy(old(storage), "installDate") ==>
        "installDate" in storage && storage["installDate"] == Text(nowStamp)
      ensures Truthy(old(storage), "installDate") ==>
        "installDate" in storage && storage["installDate"] == old(storage)["installDate"]
      ensures forall key :: key != "dateImages" && key != "outfitCount" && key != "installDate" ==>
        (key in storage <==> key in old(storage)) && (key in storage ==> storage[key] == old(storage)[key])
    {
      selectedDate := ToIso(today);
      outcome := Load(nowStamp);
      Persist();
    }

    /**
      `takePicture`. A photo is stored under the selected date only when a
      date is selected, camera permission is "granted", the camera was not
      cancelled and it returned a non-empty URI; otherwise nothing changes.
     */
    method TakePicture(permission: string, result: CameraResult) returns (outcome: CaptureOutcome)
      modifies this`images, this`storage
      ensures outcome == PickDateFirst <==> selectedDate == ""
      ensures outcome == PermissionRequired <==> selectedDate != "" && permission != "granted"
      ensures outcome == Cancelled <==> selectedDate != "" && permission == "granted" && result == Canceled
      ensures outcome == Saved <==>
        selectedDate != "" && permission == "granted" && result.Taken?
        && result.firstUri.Some? && result.firstUri.value != ""
      ensures outcome == Saved ==>
        && images == old(images)[selectedDate := result.firstUri.value]
        && CountOutfitDays(images) == CountOutfitDays(old(images)) + (if selectedDate in old(images) then 0 else 1)
        && Mirrored()
        && storage == old(storage)["dateImages" := Json(images)]
                                  ["outfitCount" := Text(NumberString(CountOutfitDays(images)))]
      ensures outcome != Saved ==> images == old(images) && storage == old(storage)
    {
      if selectedDate == "" {
        return PickDateFirst;
      }
      if permission != "granted" {
        return PermissionRequired;
      }
      match result
      case Canceled =>
        outcome := Cancelled;
      case Taken(uri) =>
        if uri.Some? && uri.value != "" {
          var next := images[selectedDate := uri.value];
          CountAfterStore(images, selectedDate, uri.value);
          images := next;
          storage := storage["dateImages" := Json(next)];
          Persist();
          outcome := Saved;
        } else {
          outcome := NoPhoto;
        }
    }

    /** The swipe-delete callback: remove the date's photo and store the new map. */
    method Delete(date: string)
      modifies this`images, this`storage
      ensures images == old(images) - {date}
      ensures CountOutfitDays(images) == CountOutfitDays(old(images)) - (if date in old(images) then 1 else 0)
      ensures Mirrored()
      ensures storage == old(storage)["dateImages" := Json(images)]
                                     ["outfitCount" := Text(NumberString(CountOutfitDays(images)))]
    {
      var updated := images - {date};
      CountAfterDelete(images, date);
      images := updated;
      storage := storage["dateImages" := Json(updated)];
      Persist();
    }

    /**
      `clearAllImages`. On "Delete all" the map is emptied, the stored map is
      removed and the count set to "0"; the effect on `images` then stores the
      empty map. On "Cancel" nothing changes.
     */
    method ClearAll(confirmed: bool)
      modifies this`images, this`storage
      ensures !confirmed ==> images == old(images) && storage == old(storage)
      ensures confirmed ==> images == map[] && Mirrored()
      ensures confirmed ==> storage == old(storage)["dateImages" := Json(map[])]["outfitCount" := Text("0")]
    {
      if confirmed {
        images := map[];
        storage := storage - {"dateImages"};
        storage := storage["outfitCount" := Text("0")];
        Persist();
      }
    }

    /** A day pressed on the calendar becomes the selected date. */
    method PressDay(dateString: string)
      modifies this`selectedDate
      ensures selectedDate == dateString
    {
      selectedDate := dateString;
    }

    /** `goToday`, also the double-tap action. */
    method GoToday(today: Date)
      requires Valid(today) && InRange(today)
      modifies this`selectedDate
      ensures selectedDate == ToIso(today) && IsIsoDate(selectedDate)
    {
      ToIsoIsIsoDate(today);
      selectedDate := ToIso(today);
    }

    /** `goPrevDay`; when `addDays` throws, the selection stays as it was. */
    method GoPrevDay() returns (moved: bool)
      modifies this`selectedDate
      ensures moved == AddDays(old(selectedDate), -1).Success?
      ensures moved ==> selectedDate == AddDays(old(selectedDate), -1).value && IsIsoDate(selectedDate)
      ensures !moved ==> selectedDate == old(selectedDate)
    {
      var r := AddDays(selectedDate, -1);
      moved := r.Success?;
      if moved {
        selectedDate := r.value;
      }
    }

    /** `goNextDay`; when `addDays` throws, the selection stays as it was. */
    method GoNextDay() returns (moved: bool)
      modifies this`selectedDate
      ensures moved == AddDays(old(selectedDate), 1).Success?
      ensures moved ==> selectedDate == AddDays(old(selectedDate), 1).value && IsIsoDate(selectedDate)
      ensures !moved ==> selectedDate == old(selectedDate)
    {
      var r := AddDays(selectedDate, 1);
      moved := r.Success?;
      if moved {
        selectedDate := r.value;
      }
    }

    /** A single tap at `x` on a preview `previewWidth` wide. */
    method SingleTap(x: real, previewWidth: real)
      modifies this`selectedDate
      ensures TapSide(x, previewWidth) == Stay ==> selectedDate == old(selectedDate)
      ensures TapSide(x, previewWidth) == Back && AddDays(old(selectedDate), -1).Success? ==>
        selectedDate == AddDays(old(selectedDate), -1).value
      ensures TapSide(x, previewWidth) == Forward && AddDays(old(selectedDate), 1).Success? ==>
        selectedDate == AddDays(old(selectedDate), 1).value
      ensures TapSide(x, previewWidth) == Back && AddDays(old(selectedDate), -1).Failure? ==>
        selectedDate == old(selectedDate)
      ensures TapSide(x, previewWidth) == Forward && AddDays(old(selectedDate), 1).Failure? ==>
        selectedDate == old(selectedDate)
    {
      match TapSide(x, previewWidth)
      case Stay =>
      case Back =>
        var _ := GoPrevDay();
      case Forward =>
        var _ := GoNextDay();
    }

    /** A double tap selects today. */
    method DoubleTap(today: Date)
      requires Valid(today) && InRange(today)
      modifies this`selectedDate
      ensures selectedDate == ToIso(today)
    {
      GoToday(today);
    }
  }

  /** A tap on the left half and then one on the right half come back to the day shown before. */
  method TapLeftThenRight(archive: StoriesArchive, previewWidth: real, left: real, right: real)
    requires previewWidth > 0.0 && 2.0 * left < previewWidth && 2.0 * right >= previewWidth
    requires IsIsoDate(archive.selectedDate) && Parse(archive.selectedDate).value != MinDate
    modifies archive`selectedDate
    ensures archive.selectedDate == old(archive.selectedDate)
  {
    BackThenForward(archive.selectedDate);
    archive.SingleTap(left, previewWidth);
    archive.SingleTap(right, previewWidth);
  }
}
