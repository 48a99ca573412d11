/** `CreateRequestDto`: the request DTO of a route keeps the entity properties
    whose validation applies to the route's group, and is named after the
    group and the entity class. */
module RequestDto {
  import opened Interface
  import opened SeqOps

  /** One class-validator metadata entry of the entity class. */
  datatype ValidationMetadata = ValidationMetadata(propertyName: string, groups: Option<seq<string>>, always: Option<bool>)

  /** The filter: `always === true || (groups ?? []).includes(group)`. */
  predicate AppliesTo(m: ValidationMetadata, group: string) {
    m.always == Some(true) || group in m.groups.GetOr([])
  }

  /** An entry marked `always` applies to every group; any other entry applies
      exactly to the groups it lists. */
  lemma AppliesToAlwaysOrListedGroup(m: ValidationMetadata, group: string)
    ensures m.always == Some(true) ==> AppliesTo(m, group)
    ensures m.always != Some(true) && m.groups.Some? ==> (AppliesTo(m, group) <==> group in m.groups.value)
  {
  }

  /** An entry without groups counts only when it is marked `always`. */
  lemma NoGroupsMeansAlwaysOnly(m: ValidationMetadata, group: string)
    requires m.groups.None?
    ensures AppliesTo(m, group) <==> m.always == Some(true)
  {
  }

  /** The property names of the entries that apply, in metadata order, repetitions kept. */
  function AppliedNames(targetMetadata: seq<ValidationMetadata>, group: string): seq<string> {
    MapSeq(Filter(targetMetadata, m => AppliesTo(m, group)), (m: ValidationMetadata) => m.propertyName)
  }

  /** `[...new Set(AppliedNames)]`. */
  function PropertyNamesAppliedValidation(targetMetadata: seq<ValidationMetadata>, group: string): (r: seq<string>)
    ensures NoDuplicates(r)
    ensures forall name :: name in r <==>
      exists m :: m in targetMetadata && AppliesTo(m, group) && m.propertyName == name
  {
    var filtered := Filter(targetMetadata, m => AppliesTo(m, group));
    var names := AppliedNames(targetMetadata, group);
    assert forall name :: name in names <==> exists m :: m in filtered && m.propertyName == name by {
      forall name | name in names ensures exists m :: m in filtered && m.propertyName == name {
        var i :| 0 <= i < |names| && names[i] == name;
        assert filtered[i] in filtered;
      }
      forall name | exists m :: m in filtered && m.propertyName == name ensures name in names {
        var m :| m in filtered && m.propertyName == name;
        var i :| 0 <= i < |filtered| && filtered[i] == m;
        assert names[i] == name;
      }
    }
    Dedupe(names)
  }

  /** The selected names keep the order of their first occurrence among the
      entries that apply. */
  lemma PropertyNamesInFirstOccurrenceOrder(targetMetadata: seq<ValidationMetadata>, group: string)
    ensures InFirstOccurrenceOrder(PropertyNamesAppliedValidation(targetMetadata, group),
                                   AppliedNames(targetMetadata, group))
  {
    DedupeInFirstOccurrenceOrder(AppliedNames(targetMetadata, group));
  }

  /** `${capitalizeFirstLetter(group)}${parentClass.name}Dto`; the capitalisation
      helper is a parameter. */
  function DtoName(capitalizeFirstLetter: string -> string, group: string, parentClassName: string): (r: string)
    ensures var prefix := capitalizeFirstLetter(group);
      && |r| == |prefix| + |parentClassName| + 3
      && r[..|prefix|] == prefix
      && r[|prefix|..|r| - 3] == parentClassName
      && r[|r| - 3..] == "Dto"
  {
    capitalizeFirstLetter(group) + parentClassName + "Dto"
  }

  /** Within one group the name tells the parent classes apart, and it always
      ends in "Dto". */
  lemma DtoNameDistinguishesClasses(capitalizeFirstLetter: string -> string, group: string, a: string, b: string)
    ensures var n := DtoName(capitalizeFirstLetter, group, a);
      |n| >= 3 && n[|n| - 3..] == "Dto"
    ensures DtoName(capitalizeFirstLetter, group, a) == DtoName(capitalizeFirstLetter, group, b) ==> a == b
  {
    var prefix := capitalizeFirstLetter(group);
    var na, nb := DtoName(capitalizeFirstLetter, group, a), DtoName(capitalizeFirstLetter, group, b);
    assert na[|prefix|..|na| - 3] == a;
    assert nb[|prefix|..|nb| - 3] == b;
  }

  /** The generated request DTO class: its name and the picked properties. */
  datatype RequestDtoClass = RequestDtoClass(name: string, properties: seq<string>)

  function CreateRequestDto(parentClassName: string, targetMetadata: seq<ValidationMetadata>, group: string,
                            capitalizeFirstLetter: string -> string): (dto: RequestDtoClass)
    ensures NoDuplicates(dto.properties)
    ensures forall name :: name in dto.properties ==>
      exists m :: m in targetMetadata && AppliesTo(m, group) && m.propertyName == name
    ensures forall m :: m in targetMetadata && AppliesTo(m, group) ==> m.propertyName in dto.properties
    ensures InFirstOccurrenceOrder(dto.properties, AppliedNames(targetMetadata, group))
    ensures dto.name == DtoName(capitalizeFirstLetter, group, parentClassName)
    ensures |dto.name| >= 3 && dto.name[|dto.name| - 3..] == "Dto"
  {
    PropertyNamesInFirstOccurrenceOrder(targetMetadata, group);
    RequestDtoClass(DtoName(capitalizeFirstLetter, group, parentClassName),
                    PropertyNamesAppliedValidation(targetMetadata, group))
  }
}
