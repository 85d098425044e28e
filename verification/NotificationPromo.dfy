/** A promo object and the record it keeps in prefs (chrome/browser/notification_promo.cc). Prefs
    keep one record a promo, under the decimal text of its id. Times are whole seconds; 0 is no time.
    An object loads once and goes on acting on what it loaded. PromoHistory has what becomes of the
    records when any number of objects do so. */
module NotificationPromo {
  datatype Record = Record(firstViewTime: int, views: int, closed: bool)

  /** What a promo object has before it has loaded anything. */
  const Blank := Record(0, 0, false)

  type Dict = map<string, Record>

  // ---------------------------------------------------------------------------------------
  // Decimal text
  // ---------------------------------------------------------------------------------------

  const DIGITS := "0123456789"

  function Digits(n: nat): string {
    (if n < 10 then "" else Digits(n / 10)) + [DIGITS[n % 10]]
  }

  function NumberToString(n: int): string {
    if n < 0 then "-" + Digits(-n) else Digits(n)
  }

  lemma {:induction false} DigitsInjective(m: nat, n: nat)
    requires Digits(m) == Digits(n)
    ensures m == n
    decreases m + n
  {
    var x, y := Digits(m), Digits(n);
    assert x[|x| - 1] == DIGITS[m % 10] && y[|y| - 1] == DIGITS[n % 10];
    assert m % 10 == n % 10;
    var p, q := if m < 10 then "" else Digits(m / 10), if n < 10 then "" else Digits(n / 10);
    assert p == x[..|x| - 1] && q == y[..|y| - 1];
    if m >= 10 && n >= 10 {
      DigitsInjective(m / 10, n / 10);
    }
  }

  lemma {:induction false} DigitsHaveNoSign(n: nat)
    ensures Digits(n) != "" && Digits(n)[0] != '-'
  {
    if n >= 10 { DigitsHaveNoSign(n / 10); }
  }

  lemma NumberToStringInjective(m: int, n: int)
    requires NumberToString(m) == NumberToString(n)
    ensures m == n
  {
    if m < 0 && n < 0 {
      assert NumberToString(m)[1..] == Digits(-m) && NumberToString(n)[1..] == Digits(-n);
      DigitsInjective(-m, -n);
    } else if m >= 0 && n >= 0 {
      DigitsInjective(m, n);
    } else {
      DigitsHaveNoSign(if m < 0 then n else m);
    }
  }

  // ---------------------------------------------------------------------------------------
  // One promo object
  // ---------------------------------------------------------------------------------------

  /** What the promo was configured with. */
  datatype Promo = Promo(id: int, text: string, start: int, end: int, maxViews: int, maxSeconds: int)

  function Load(dict: Dict, promo: Promo, current: Record): Record {
    if promo.id == -1 || NumberToString(promo.id) !in dict then current else dict[NumberToString(promo.id)]
  }

  predicate ExceedsMaxViews(promo: Promo, r: Record) {
    promo.maxViews != 0 && r.views >= promo.maxViews
  }

  predicate ExceedsMaxSeconds(promo: Promo, r: Record, now: int) {
    promo.maxSeconds != 0 && r.firstViewTime != 0 && r.firstViewTime + promo.maxSeconds < now
  }

  predicate Showable(promo: Promo, r: Record, now: int) {
    && !r.closed && promo.text != "" && !ExceedsMaxViews(promo, r) && !ExceedsMaxSeconds(promo, r, now)
    && promo.start < now < promo.end
  }

  function Viewed(r: Record, now: int): Record {
    Record(if r.firstViewTime == 0 then now else r.firstViewTime, r.views + 1, r.closed)
  }

  function Write(dict: Dict, id: int, r: Record): Dict {
    dict[NumberToString(id) := r]
  }

  function RecordOf(dict: Dict, id: int): Record {
    if NumberToString(id) in dict then dict[NumberToString(id)] else Blank
  }

  /** Writing one promo's record leaves those of other promos alone. */
  lemma OtherRecordsStay(dict: Dict, id: int, r: Record, other: int)
    ensures RecordOf(Write(dict, id, r), other) == if other == id then r else RecordOf(dict, other)
  {
    if NumberToString(other) == NumberToString(id) {
      NumberToStringInjective(other, id);
    }
  }

  class PrefService {
    var dict: Dict

    constructor ()
      ensures dict == map[]
    {
      dict := map[];
    }
  }

  class PromoObject {
    const localState: PrefService
    const promo: Promo
    var record: Record

    constructor (localState: PrefService, promo: Promo)
      ensures this.localState == localState && this.promo == promo && record == Blank
    {
      this.localState, this.promo, record := localState, promo, Blank;
    }

    method InitFromPrefs()
      modifies this
      ensures record == Load(localState.dict, promo, old(record))
    {
      if promo.id == -1 {
        return;
      }
      var key := NumberToString(promo.id);
      if key !in localState.dict {
        return;
      }
      record := localState.dict[key];
    }

    method CanShow(now: int) returns (can: bool)
      ensures can <==> Showable(promo, record, now)
    {
      var exceedsMaxViews := if promo.maxViews == 0 then false else record.views >= promo.maxViews;
      var exceedsMaxSeconds := false;
      if promo.maxSeconds != 0 && record.firstViewTime != 0 {
        var lastViewTime := record.firstViewTime + promo.maxSeconds;
        exceedsMaxSeconds := lastViewTime < now;
      }
      can := !record.closed && promo.text != "" && !exceedsMaxViews && !exceedsMaxSeconds &&
             promo.start < now && promo.end > now;
    }

    method WritePrefs(firstViewTime: int, views: int, closed: bool)
      modifies localState
      ensures localState.dict == Write(old(localState.dict), promo.id, Record(firstViewTime, views, closed))
    {
      localState.dict := localState.dict[NumberToString(promo.id) := Record(firstViewTime, views, closed)];
    }

    /** Writes only when this object has not loaded the promo as closed. */
    method HandleClosed()
      modifies localState
      ensures localState.dict ==
              if record.closed then old(localState.dict)
              else Write(old(localState.dict), promo.id, record.(closed := true))
    {
      if !record.closed {
        WritePrefs(record.firstViewTime, record.views, true);
      }
    }

    method HandleViewed(now: int)
      modifies localState
      ensures localState.dict == Write(old(localState.dict), promo.id, Viewed(record, now))
    {
      var views := record.views + 1;
      var firstViewTime := record.firstViewTime;
      if firstViewTime == 0 {
        firstViewTime := now;
      }
      WritePrefs(firstViewTime, views, record.closed);
    }
  }
}
