/** Lookup of a vacancy by id in the list loaded from vacancies.json. */
module VacancyParser {
  import opened Wrappers
  import opened Domain

  /** The `ValueError` raised when no vacancy carries the id. */
  datatype LookupError = VacancyNotFound(id: string)

  /**
   * The first vacancy of the list whose id is `vacId`, the element itself,
   * or VacancyNotFound when none has it.
   */
  function Lookup(vacancies: seq<Vacancy>, vacId: string): (r: Result<Vacancy, LookupError>)
    ensures r.Ok? ==> exists k :: 0 <= k < |vacancies| && vacancies[k] == r.value && FirstWithId(vacancies, vacId, k)
    ensures r.Err? <==> forall k :: 0 <= k < |vacancies| ==> vacancies[k].id != vacId
    ensures r.Err? ==> r.error == VacancyNotFound(vacId)
  {
    if vacancies == [] then Err(VacancyNotFound(vacId))
    else if vacancies[0].id == vacId then
      assert FirstWithId(vacancies, vacId, 0);
      Ok(vacancies[0])
    else
      var r := Lookup(vacancies[1..], vacId);
      if r.Ok? then
        var k :| 0 <= k < |vacancies[1..]| && vacancies[1..][k] == r.value && FirstWithId(vacancies[1..], vacId, k);
        assert FirstWithId(vacancies, vacId, k + 1);
        r
      else
        assert forall k :: 1 <= k < |vacancies| ==> vacancies[k] == vacancies[1..][k - 1];
        r
  }

  /** `extract_vacancy`: a linear search with an early return. */
  method ExtractVacancy(vacancies: seq<Vacancy>, vacId: string) returns (r: Result<Vacancy, LookupError>)
    ensures r == Lookup(vacancies, vacId)
  {
    for i := 0 to |vacancies|
      invariant forall k :: 0 <= k < i ==> vacancies[k].id != vacId
    {
      if vacancies[i].id == vacId {
        var l := Lookup(vacancies, vacId);
        var k :| 0 <= k < |vacancies| && vacancies[k] == l.value && FirstWithId(vacancies, vacId, k);
        FirstWithIdUnique(vacancies, vacId, i, k);
        return Ok(vacancies[i]);
      }
    }
    return Err(VacancyNotFound(vacId));
  }

  /** Index `k` holds the id and no earlier index does. */
  predicate FirstWithId(vacancies: seq<Vacancy>, vacId: string, k: int) {
    0 <= k < |vacancies| && vacancies[k].id == vacId &&
    forall j :: 0 <= j < k ==> vacancies[j].id != vacId
  }

  /** Two vacancies sharing the id: the lookup can only return the earlier one. */
  lemma FirstWithIdUnique(vacancies: seq<Vacancy>, vacId: string, k1: int, k2: int)
    requires FirstWithId(vacancies, vacId, k1) && FirstWithId(vacancies, vacId, k2)
    ensures k1 == k2
  {
  }
}
