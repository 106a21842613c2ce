/** Values shared by the models of both variants of the rental application. */
module Common {

  datatype Option<+T> = None | Some(value: T)

  /** A date field of a submitted form as `datetime.strptime(s, '%Y-%m-%d')` sees it:
      missing from the form (None), the empty string, a string that is not a date,
      or the day number of the date it names. */
  datatype DateField = Absent | Empty | Malformed | Day(day: int)

  /** Why a booking or equipment form was refused before anything was looked up. */
  datatype InputError = MissingFields | BadDateFormat | StartAfterEnd | StartInPast

  /** The result of an equipment or reservation route, in place of its flash
      message and redirect. Every result other than `Ok` leaves the store as it was. */
  datatype Outcome =
    | Ok(id: int)              // the row created, finalized or deleted
    | Invalid(reason: InputError)
    | Forbidden                // the caller is not an administrator
    | NotFound
    | Unavailable              // the equipment's status is not 'disponivel'
    | Conflict                 // the period clashes with a stored reservation
    | HasReservations
    | AlreadyFinalized
    | ServerError              // an exception the route does not catch; nothing is committed

  /** Day d falls within the inclusive period [ini, fim]. */
  predicate Within(d: int, ini: int, fim: int) {
    ini <= d <= fim
  }

  /** The calendar days of the inclusive period [ini, fim]. The explicit bounds
      show the set is finite; `Within` gives the comprehension a trigger. */
  function Days(ini: int, fim: int): set<int> {
    set d | ini <= d <= fim && Within(d, ini, fim)
  }

  /** An inclusive period of n days holds n calendar days. */
  lemma {:induction false} DaysCount(ini: int, fim: int)
    requires ini <= fim + 1
    ensures |Days(ini, fim)| == fim - ini + 1
    decreases fim - ini
  {
    if ini <= fim {
      DaysCount(ini, fim - 1);
      var antes := Days(ini, fim - 1);
      assert fim !in antes;
      assert forall d :: d in Days(ini, fim) <==> d in antes || d == fim;
      assert Days(ini, fim) == antes + {fim};
      assert |antes + {fim}| == |antes| + 1;
    } else {
      assert forall d :: d !in Days(ini, fim);
      assert Days(ini, fim) == {};
    }
  }
}
