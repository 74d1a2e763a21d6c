/** The students store of the frontend: the list of students, the filter the
    list view applies, the counters and course list it shows, and the actions
    that bring the list in line with the server's answers. */
module StudentsStore {
  import opened Common

  datatype Status = Pendente | Aprovado | Cancelado

  /** The status filter: every status, or one. */
  datatype StatusFilter = All | Only(status: Status)

  datatype Student = Student(
    id: Option<int>,
    nome: string,
    cpf: string,
    dataNascimento: string,
    turma: string,
    email: string,
    telefone: string,
    curso: string,
    status: Status,
    createdAt: Option<string>,
    updatedAt: Option<string>)

  datatype FilterOptions = FilterOptions(search: string, status: StatusFilter, curso: string)

  /** The filters the store starts with and `clearFilters` restores. */
  function DefaultFilters(): FilterOptions
  {
    FilterOptions("", All, "")
  }

  // ---------------------------------------------------------------------------
  // Case-insensitive substring search
  // ---------------------------------------------------------------------------

  predicate IsUpper(c: char) { 'A' <= c <= 'Z' }

  /** `toLowerCase` on one character, for the ASCII letters. */
  function LowerChar(c: char): (l: char)
    ensures !IsUpper(l)
    ensures !IsUpper(c) ==> l == c
  {
    if IsUpper(c) then (c as int + 32) as char else c
  }

  function Lower(s: string): (l: string)
    ensures |l| == |s|
    ensures forall i :: 0 <= i < |s| ==> l[i] == LowerChar(s[i])
  {
    seq(|s|, i requires 0 <= i < |s| => LowerChar(s[i]))
  }

  /** Lowering a lowered string changes nothing. */
  lemma LowerIdempotent(s: string)
    ensures Lower(Lower(s)) == Lower(s)
  {
    var l := Lower(s);
    assert forall i :: 0 <= i < |l| ==> !IsUpper(l[i]);
  }

  /** `part` occurs in `text` at position `i`. */
  predicate OccursAt(text: string, part: string, i: int)
  {
    0 <= i && i + |part| <= |text| && text[i..i + |part|] == part
  }

  /** `text.includes(part)`: `part` starts at some position of `text`. */
  predicate Includes(text: string, part: string)
    decreases |text|
  {
    if |part| > |text| then false
    else if text[..|part|] == part then true
    else Includes(text[1..], part)
  }

  /** `Includes` finds exactly the positions where `part` occurs. */
  lemma {:induction false} IncludesOccurrence(text: string, part: string)
    ensures Includes(text, part) <==> exists i :: OccursAt(text, part, i)
    decreases |text|
  {
    if |part| <= |text| && text[..|part|] != part {
      IncludesOccurrence(text[1..], part);
      if exists i :: OccursAt(text, part, i) {
        var i :| OccursAt(text, part, i);
        assert i != 0;
        assert OccursAt(text[1..], part, i - 1);
      }
      if Includes(text[1..], part) {
        var i :| OccursAt(text[1..], part, i);
        assert text[1..][i..i + |part|] == text[i + 1..i + 1 + |part|];
        assert OccursAt(text, part, i + 1);
      }
    } else if |part| <= |text| {
      assert OccursAt(text, part, 0);
    }
  }

  /** The empty string is part of every string, as with `includes('')`. */
  lemma IncludesEmpty(text: string)
    ensures Includes(text, "")
  {
    assert text[..0] == "";
  }

  // ---------------------------------------------------------------------------
  // filteredStudents
  // ---------------------------------------------------------------------------

  /** The search matches the name, the e-mail or the course, ignoring case. */
  predicate MatchesSearch(s: Student, search: string)
  {
    || search == ""
    || Includes(Lower(s.nome), Lower(search))
    || Includes(Lower(s.email), Lower(search))
    || Includes(Lower(s.curso), Lower(search))
  }

  predicate MatchesStatus(s: Student, status: StatusFilter)
  {
    status == All || status == Only(s.status)
  }

  /** The course filter, ignoring case like the search. */
  predicate MatchesCurso(s: Student, curso: string)
  {
    curso == "" || Includes(Lower(s.curso), Lower(curso))
  }

  predicate Matches(s: Student, f: FilterOptions)
  {
    MatchesSearch(s, f.search) && MatchesStatus(s, f.status) && MatchesCurso(s, f.curso)
  }

  /** `filteredStudents`: the students the filters let through, in list order. */
  function FilteredStudents(students: seq<Student>, f: FilterOptions): (r: seq<Student>)
    ensures IsSubsequence(r, students)
    ensures forall s :: s in r <==> s in students && Matches(s, f)
    ensures forall s :: multiset(r)[s] == if Matches(s, f) then multiset(students)[s] else 0
    decreases |students|
  {
    if students == [] then []
    else
      var rest := FilteredStudents(students[1..], f);
      assert students == [students[0]] + students[1..];
      if Matches(students[0], f) then
        SubsequenceKeep(rest, students[1..], students[0]);
        [students[0]] + rest
      else
        SubsequenceSkip(rest, students[1..], students[0]);
        rest
  }

  /** With the default filters every student is listed, in list order. */
  lemma {:induction false} DefaultFiltersListAll(students: seq<Student>)
    ensures FilteredStudents(students, DefaultFilters()) == students
    decreases |students|
  {
    if students != [] {
      DefaultFiltersListAll(students[1..]);
      assert Matches(students[0], DefaultFilters());
      assert students == [students[0]] + students[1..];
    }
  }

  /** The search ignores the case of what is typed. */
  lemma SearchIgnoresCase(s: Student, search: string)
    ensures MatchesSearch(s, search) <==> MatchesSearch(s, Lower(search))
  {
    LowerIdempotent(search);
    if search != "" {
      assert Lower(search) != "";
    }
  }

  /** A search typed as a part of the name always finds the student. */
  lemma SearchFindsName(s: Student, i: nat, j: nat)
    requires i <= j <= |s.nome|
    ensures MatchesSearch(s, s.nome[i..j])
  {
    var l := Lower(s.nome);
    var part := Lower(s.nome[i..j]);
    assert l[i..i + |part|] == part;
    assert OccursAt(l, part, i);
    IncludesOccurrence(l, part);
  }

  // ---------------------------------------------------------------------------
  // Counters
  // ---------------------------------------------------------------------------

  /** `filter(s => s.status === status).length`. */
  function CountStatus(students: seq<Student>, status: Status): (n: nat)
    ensures n <= |students|
    decreases |students|
  {
    if students == [] then 0
    else (if students[0].status == status then 1 else 0) + CountStatus(students[1..], status)
  }

  /** `approvedStudents`. */
  function ApprovedStudents(students: seq<Student>): (n: nat)
    ensures n <= |students|
  {
    CountStatus(students, Aprovado)
  }

  /** `cancelledStudents`. */
  function CancelledStudents(students: seq<Student>): (n: nat)
    ensures n <= |students|
  {
    CountStatus(students, Cancelado)
  }

  /** Every student is counted under exactly one status, so the approved, the
      cancelled and the pending add up to `totalStudents`. */
  lemma {:induction false} StatusCountsAddUp(students: seq<Student>)
    ensures CountStatus(students, Pendente) + ApprovedStudents(students) + CancelledStudents(students) == |students|
    decreases |students|
  {
    if students != [] {
      StatusCountsAddUp(students[1..]);
    }
  }

  /** The counter agrees with the filter on that status alone. */
  lemma {:induction false} CountIsFilteredLength(students: seq<Student>, status: Status)
    ensures CountStatus(students, status) == |FilteredStudents(students, FilterOptions("", Only(status), ""))|
    decreases |students|
  {
    if students != [] {
      CountIsFilteredLength(students[1..], status);
    }
  }

  // ---------------------------------------------------------------------------
  // availableCourses
  // ---------------------------------------------------------------------------

  /** JavaScript's default string order: code unit by code unit, a proper
      prefix first. */
  predicate Before(a: string, b: string)
    decreases |a|
  {
    if b == [] then false
    else if a == [] then true
    else if a[0] != b[0] then a[0] < b[0]
    else Before(a[1..], b[1..])
  }

  lemma {:induction false} BeforeIrreflexive(a: string)
    ensures !Before(a, a)
    decreases |a|
  {
    if a != [] {
      BeforeIrreflexive(a[1..]);
    }
  }

  lemma {:induction false} BeforeTotal(a: string, b: string)
    requires a != b
    ensures Before(a, b) || Before(b, a)
    decreases |a|
  {
    if a != [] && b != [] && a[0] == b[0] {
      assert a == [a[0]] + a[1..] && b == [b[0]] + b[1..];
      BeforeTotal(a[1..], b[1..]);
    }
  }

  lemma {:induction false} BeforeTransitive(a: string, b: string, c: string)
    requires Before(a, b) && Before(b, c)
    ensures Before(a, c)
    decreases |a|
  {
    if a != [] && a[0] == b[0] && b[0] == c[0] {
      BeforeTransitive(a[1..], b[1..], c[1..]);
    }
  }

  predicate Sorted(xs: seq<string>)
  {
    forall i, j :: 0 <= i < j < |xs| ==> Before(xs[i], xs[j])
  }

  predicate NoDuplicates(xs: seq<string>)
  {
    forall i, j :: 0 <= i < j < |xs| ==> xs[i] != xs[j]
  }

  lemma SortedHasNoDuplicates(xs: seq<string>)
    requires Sorted(xs)
    ensures NoDuplicates(xs)
  {
    forall i, j | 0 <= i < j < |xs| ensures xs[i] != xs[j] {
      BeforeIrreflexive(xs[i]);
    }
  }

  /** `students.map(s => s.curso)`. */
  function Courses(students: seq<Student>): (cs: seq<string>)
    ensures forall c :: c in cs <==> exists s :: s in students && s.curso == c
    decreases |students|
  {
    if students == [] then []
    else
      assert students == [students[0]] + students[1..];
      [students[0].curso] + Courses(students[1..])
  }

  /** `[...new Set(xs)]`: the first occurrence of each value, in list order. */
  function Distinct(xs: seq<string>): (r: seq<string>)
    ensures forall x :: x in r <==> x in xs
    ensures NoDuplicates(r)
    decreases |xs|
  {
    if xs == [] then []
    else
      var last := xs[|xs| - 1];
      var rest := Distinct(xs[..|xs| - 1]);
      assert xs == xs[..|xs| - 1] + [last];
      if last in rest then rest else rest + [last]
  }

  /** One step of the sort: `x` placed before the first entry it precedes. */
  function Insert(x: string, xs: seq<string>): (r: seq<string>)
    ensures |r| == |xs| + 1
    ensures forall y :: y in r <==> y == x || y in xs
    decreases |xs|
  {
    if xs == [] then [x]
    else if Before(x, xs[0]) then [x] + xs
    else [xs[0]] + Insert(x, xs[1..])
  }

  lemma {:induction false} InsertSorted(x: string, xs: seq<string>)
    requires Sorted(xs) && x !in xs
    ensures Sorted(Insert(x, xs))
    decreases |xs|
  {
    if xs == [] {
    } else if Before(x, xs[0]) {
      var r := [x] + xs;
      forall i, j | 0 <= i < j < |r| ensures Before(r[i], r[j]) {
        if i == 0 && j > 1 {
          BeforeTransitive(x, xs[0], xs[j - 1]);
        }
      }
    } else {
      BeforeTotal(x, xs[0]);
      InsertSorted(x, xs[1..]);
      var rest := Insert(x, xs[1..]);
      var r := [xs[0]] + rest;
      forall j | 1 <= j < |r| ensures Before(r[0], r[j]) {
        var y := rest[j - 1];
        assert y in rest;
        if y != x {
          var k :| 0 <= k < |xs[1..]| && xs[1..][k] == y;
          assert xs[k + 1] == y;
        }
      }
      assert Insert(x, xs) == r;
    }
  }

  /** `sort()` on a list of distinct strings, as an insertion sort. */
  function SortStrings(xs: seq<string>): (r: seq<string>)
    ensures |r| == |xs|
    ensures forall y :: y in r <==> y in xs
    decreases |xs|
  {
    if xs == [] then [] else Insert(xs[0], SortStrings(xs[1..]))
  }

  lemma {:induction false} SortStringsSorted(xs: seq<string>)
    requires NoDuplicates(xs)
    ensures Sorted(SortStrings(xs))
    decreases |xs|
  {
    if xs != [] {
      SortStringsSorted(xs[1..]);
      assert xs[0] !in xs[1..];
      InsertSorted(xs[0], SortStrings(xs[1..]));
    }
  }

  /** `availableCourses`: every course some student takes, once, in order. */
  function AvailableCourses(students: seq<Student>): (r: seq<string>)
    ensures Sorted(r) && NoDuplicates(r)
    ensures forall c :: c in r <==> exists s :: s in students && s.curso == c
  {
    var distinct := Distinct(Courses(students));
    SortStringsSorted(distinct);
    SortedHasNoDuplicates(SortStrings(distinct));
    SortStrings(distinct)
  }

  // ---------------------------------------------------------------------------
  // Looking students up and changing the list
  // ---------------------------------------------------------------------------

  /** The position of the first student with this id (`findIndex`/`find`). */
  function IndexOfStudent(students: seq<Student>, id: int): (r: Option<nat>)
    ensures r.Some? ==> r.value < |students| && students[r.value].id == Some(id)
                        && forall j :: 0 <= j < r.value ==> students[j].id != Some(id)
    ensures r.None? ==> forall s :: s in students ==> s.id != Some(id)
  {
    IndexWhere(students, HasId(id))
  }

  /** The test `findIndex`/`find` applies: the student has this id. */
  function HasId(id: int): Student -> bool
  {
    (s: Student) => s.id == Some(id)
  }

  /** The list with the first student of this id replaced by `s`. */
  function ReplaceFirst(students: seq<Student>, id: int, s: Student): (r: seq<Student>)
    ensures |r| == |students|
    ensures (forall t :: t in students ==> t.id != Some(id)) ==> r == students
  {
    var index := IndexOfStudent(students, id);
    if index.Some? then students[index.value := s] else students
  }

  /** Only the first student with the id is replaced; a list without the id is
      left as it was. */
  lemma ReplaceFirstOnlyFirst(students: seq<Student>, id: int, s: Student, k: nat)
    requires k < |students|
    ensures var first := students[k].id == Some(id) && forall j :: 0 <= j < k ==> students[j].id != Some(id);
            ReplaceFirst(students, id, s)[k] == if first then s else students[k]
  {
    var index := IndexOfStudent(students, id);
    if index.Some? && index.value != k {
      if index.value < k {
        assert students[index.value].id == Some(id);
      } else {
        assert students[k].id != Some(id);
      }
    }
  }

  /** `students.filter(s => s.id !== id)`. */
  function WithoutStudent(students: seq<Student>, id: int): (r: seq<Student>)
    ensures IsSubsequence(r, students)
    ensures forall s :: s in r <==> s in students && s.id != Some(id)
    ensures forall s :: multiset(r)[s] == if s.id != Some(id) then multiset(students)[s] else 0
    decreases |students|
  {
    if students == [] then []
    else
      var rest := WithoutStudent(students[1..], id);
      assert students == [students[0]] + students[1..];
      if students[0].id != Some(id) then
        SubsequenceKeep(rest, students[1..], students[0]);
        [students[0]] + rest
      else
        SubsequenceSkip(rest, students[1..], students[0]);
        rest
  }

  /** Removing an id that is not listed changes nothing. */
  lemma {:induction false} WithoutAbsentStudent(students: seq<Student>, id: int)
    requires forall s :: s in students ==> s.id != Some(id)
    ensures WithoutStudent(students, id) == students
    decreases |students|
  {
    if students != [] {
      assert students[0] in students;
      assert forall s :: s in students[1..] ==> s in students;
      WithoutAbsentStudent(students[1..], id);
      assert students == [students[0]] + students[1..];
    }
  }

  /** The message an action leaves in `error`: the server's message when it
      sent a non-empty one, the action's own text otherwise. */
  function ErrorText(serverMessage: Option<string>, fallback: string): (text: string)
    ensures text == fallback || Some(text) == serverMessage
  {
    if serverMessage.Some? && serverMessage.value != "" then serverMessage.value else fallback
  }

  /** The message `fetchStudentById` leaves when the lookup fails. */
  function LookupErrorText(id: int): (text: string)
    ensures |text| == 28 + |IntToString(id)|
    ensures text[..28] == "Erro ao buscar aluno com ID "
    ensures text[28..] == IntToString(id)
  {
    "Erro ao buscar aluno com ID " + IntToString(id)
  }

  // ---------------------------------------------------------------------------
  // The store
  // ---------------------------------------------------------------------------

  /** The answer of a server call: its data, or a failure with the message the
      server sent, if any. */
  type Response<T> = Result<T, Option<string>>

  class Store {
    var students: seq<Student>
    var loading: bool
    var error: Option<string>
    var filters: FilterOptions

    constructor ()
      ensures students == [] && !loading && error == None && filters == DefaultFilters()
    {
      students := [];
      loading := false;
      error := None;
      filters := DefaultFilters();
    }

    /** `filteredStudents` over the current state. */
    function Filtered(): seq<Student>
      reads this
    {
      FilteredStudents(students, filters)
    }

    /** `findIndex(s => s.id === id)` over the list, scanning from the front. */
    method FindIndex(id: int) returns (index: int)
      ensures index == (match IndexOfStudent(students, id) case Some(i) => i case None => -1)
    {
      var i := 0;
      while i < |students|
        invariant 0 <= i <= |students|
        invariant forall j :: 0 <= j < i ==> students[j].id != Some(id)
      {
        if students[i].id == Some(id) {
          FirstMatchIsIndex(students, HasId(id), i);
          return i;
        }
        i := i + 1;
      }
      assert forall s :: s in students ==> s.id != Some(id);
      index := -1;
    }

    /** `fetchStudents`: the list becomes the server's list; on failure the
        list stays and the error is set. */
    method FetchStudents(response: Response<seq<Student>>)
      modifies this
      ensures !loading && filters == old(filters)
      ensures response.Ok? ==> students == response.value && error == None
      ensures response.Err? ==> students == old(students)
                                && error == Some(ErrorText(response.error, "Erro ao carregar alunos"))
    {
      loading := true;
      error := None;
      if response.Ok? {
        students := response.value;
      } else {
        error := Some(ErrorText(response.error, "Erro ao carregar alunos"));
      }
      loading := false;
    }

    /** `createStudent`: the created student is appended and returned. */
    method Create(response: Response<Student>) returns (created: Option<Student>)
      modifies this
      ensures !loading && filters == old(filters)
      ensures response.Ok? ==> created == Some(response.value) && error == None
                               && students == old(students) + [response.value]
      ensures response.Err? ==> created == None && students == old(students)
                                && error == Some(ErrorText(response.error, "Erro ao criar aluno"))
    {
      loading := true;
      error := None;
      if response.Ok? {
        students := students + [response.value];
        created := Some(response.value);
      } else {
        error := Some(ErrorText(response.error, "Erro ao criar aluno"));
        created := None;
      }
      loading := false;
    }

    /** `updateStudent`: the first student with the id is replaced by the
        server's version. */
    method Update(id: int, response: Response<Student>) returns (updated: Option<Student>)
      modifies this
      ensures !loading && filters == old(filters)
      ensures response.Ok? ==> updated == Some(response.value) && error == None
                               && students == ReplaceFirst(old(students), id, response.value)
      ensures response.Err? ==> updated == None && students == old(students)
                                && error == Some(ErrorText(response.error, "Erro ao atualizar aluno"))
    {
      loading := true;
      error := None;
      if response.Ok? {
        var index := FindIndex(id);
        if index != -1 {
          students := students[index := response.value];
        }
        updated := Some(response.value);
      } else {
        error := Some(ErrorText(response.error, "Erro ao atualizar aluno"));
        updated := None;
      }
      loading := false;
    }

    /** `deleteStudent`: every student with the id leaves the list. */
    method Delete(id: int, response: Response<()>) returns (deleted: bool)
      modifies this
      ensures !loading && filters == old(filters)
      ensures deleted <==> response.Ok?
      ensures response.Ok? ==> students == WithoutStudent(old(students), id) && error == None
      ensures response.Err? ==> students == old(students)
                                && error == Some(ErrorText(response.error, "Erro ao deletar aluno"))
    {
      loading := true;
      error := None;
      if response.Ok? {
        students := WithoutStudent(students, id);
        deleted := true;
      } else {
        error := Some(ErrorText(response.error, "Erro ao deletar aluno"));
        deleted := false;
      }
      loading := false;
    }

    /** `updateStudentStatus`: like the update, but it neither raises the
        loading flag nor clears an earlier error. */
    method UpdateStatus(id: int, status: Status, response: Response<Student>) returns (updated: Option<Student>)
      modifies this
      ensures loading == old(loading) && filters == old(filters)
      ensures response.Ok? ==> updated == Some(response.value) && error == old(error)
                               && students == ReplaceFirst(old(students), id, response.value)
      ensures response.Err? ==> updated == None && students == old(students)
                                && error == Some(ErrorText(response.error, "Erro ao atualizar status"))
    {
      if response.Ok? {
        var index := FindIndex(id);
        if index != -1 {
          students := students[index := response.value];
        }
        updated := Some(response.value);
      } else {
        error := Some(ErrorText(response.error, "Erro ao atualizar status"));
        updated := None;
      }
    }

    /** `fetchStudentById`: a listed student is answered from the list without
        asking the server; otherwise the server's student is appended. */
    method FetchById(id: int, response: Response<Student>) returns (found: Option<Student>)
      modifies this
      ensures loading == old(loading) && filters == old(filters)
      ensures IndexOfStudent(old(students), id).Some? ==>
                found == Some(old(students)[IndexOfStudent(old(students), id).value])
                && students == old(students) && error == old(error)
      ensures IndexOfStudent(old(students), id).None? && response.Ok? ==>
                found == Some(response.value) && students == old(students) + [response.value]
                && error == old(error)
      ensures IndexOfStudent(old(students), id).None? && response.Err? ==>
                found == None && students == old(students) && error == Some(LookupErrorText(id))
    {
      var index := FindIndex(id);
      if index != -1 {
        return Some(students[index]);
      }
      if response.Ok? {
        students := students + [response.value];
        found := Some(response.value);
      } else {
        error := Some(LookupErrorText(id));
        found := None;
      }
    }

    /** `setFilters`: the keys given replace the current ones. */
    method SetFilters(patch: FilterPatch)
      modifies this
      ensures filters == MergeFilters(old(filters), patch)
      ensures students == old(students) && loading == old(loading) && error == old(error)
    {
      filters := MergeFilters(filters, patch);
    }

    /** `clearFilters`: back to the defaults, so every student is listed. */
    method ClearFilters()
      modifies this
      ensures filters == DefaultFilters() && Filtered() == students
      ensures students == old(students) && loading == old(loading) && error == old(error)
    {
      filters := DefaultFilters();
      DefaultFiltersListAll(students);
    }
  }

  /** `Partial<FilterOptions>`: the keys a `setFilters` call gives. */
  datatype FilterPatch = FilterPatch(search: Option<string>, status: Option<StatusFilter>, curso: Option<string>)

  /** `{ ...filters, ...newFilters }`. */
  function MergeFilters(current: FilterOptions, patch: FilterPatch): (r: FilterOptions)
    ensures r.search == OrElse(patch.search, current.search)
    ensures r.status == OrElse(patch.status, current.status)
    ensures r.curso == OrElse(patch.curso, current.curso)
  {
    FilterOptions(OrElse(patch.search, current.search), OrElse(patch.status, current.status),
                  OrElse(patch.curso, current.curso))
  }

  /** Giving no key leaves the filters as they are; giving a key twice keeps
      the later value. */
  lemma MergeFiltersLaws(current: FilterOptions, p: FilterPatch, q: FilterPatch)
    ensures MergeFilters(current, FilterPatch(None, None, None)) == current
    ensures MergeFilters(MergeFilters(current, p), q)
            == MergeFilters(current, FilterPatch(if q.search.Some? then q.search else p.search,
                                                 if q.status.Some? then q.status else p.status,
                                                 if q.curso.Some? then q.curso else p.curso))
  {
  }
}
