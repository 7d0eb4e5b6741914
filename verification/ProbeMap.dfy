/** Probe maps: what each probe index of a class means (runtime/ProbeMap.kt). */
module ProbeMap {
  import opened Text
  import opened Wrappers

  datatype ProbeType = LINE | BRANCH

  const NO_BRANCH := -1

  datatype ProbeEntry = ProbeEntry(
    probeIndex: int,
    lineNumber: int,
    methodName: Text,
    methodDesc: Text,
    kind: ProbeType,
    isComposable: bool,
    branchGroup: int)

  /** The value of a class's probe map at one moment. */
  datatype ClassMap = ClassMap(classId: int, className: Text, sourceFile: Option<Text>, probes: seq<ProbeEntry>)

  class ClassProbeMap {
    const classId: int
    const className: Text
    const sourceFile: Option<Text>
    var probeEntries: seq<ProbeEntry>

    constructor (classId: int, className: Text, sourceFile: Option<Text>)
      ensures Contents() == ClassMap(classId, className, sourceFile, [])
    {
      this.classId, this.className, this.sourceFile := classId, className, sourceFile;
      probeEntries := [];
    }

    function Contents(): ClassMap
      reads this
    {
      ClassMap(classId, className, sourceFile, probeEntries)
    }

    method AddProbe(entry: ProbeEntry)
      modifies this
      ensures probeEntries == old(probeEntries) + [entry]
    {
      probeEntries := probeEntries + [entry];
    }
  }

  /** Class maps by class id. */
  class ProbeMap {
    var entries: map<int, ClassProbeMap>

    constructor ()
      ensures Valid() && entries == map[] && Contents() == map[]
    {
      entries := map[];
    }

    /** Every map is kept under its own id, so no two ids share one. */
    ghost predicate Valid()
      reads this
    {
      forall id :: id in entries ==> entries[id].classId == id
    }

    ghost function Contents(): map<int, ClassMap>
      reads this, entries.Values
    {
      map id | id in entries :: entries[id].Contents()
    }

    method GetOrCreateClassMap(classId: int, className: Text, sourceFile: Option<Text>) returns (m: ClassProbeMap)
      requires Valid()
      modifies this
      ensures Valid() && classId in entries && entries[classId] == m
      ensures entries == old(entries)[classId := m]
      ensures if classId in old(entries) then m == old(entries)[classId] else fresh(m)
      ensures Contents() == if classId in old(entries) then old(Contents())
                            else old(Contents())[classId := ClassMap(classId, className, sourceFile, [])]
    {
      if classId !in entries {
        var created := new ClassProbeMap(classId, className, sourceFile);
        entries := entries[classId := created];
      }
      m := entries[classId];
    }

    /** Adding to one class's map leaves the others alone. */
    method AddTo(m: ClassProbeMap, entry: ProbeEntry)
      requires Valid() && m.classId in entries && entries[m.classId] == m
      modifies m
      ensures Valid() && m.classId in old(Contents())
      ensures Contents() == old(Contents())[m.classId :=
        old(Contents())[m.classId].(probes := old(Contents())[m.classId].probes + [entry])]
    {
      assert forall id :: id in entries && id != m.classId ==> entries[id] != m;
      ghost var expected := Contents()[m.classId := Contents()[m.classId].(probes := Contents()[m.classId].probes + [entry])];
      m.AddProbe(entry);
      assert Contents().Keys == expected.Keys;
      assert forall id :: id in entries ==> Contents()[id] == expected[id];
    }

    method PutClassMap(m: ClassProbeMap)
      requires Valid()
      modifies this
      ensures Valid() && entries == old(entries)[m.classId := m]
      ensures Contents() == old(Contents())[m.classId := m.Contents()]
    {
      entries := entries[m.classId := m];
    }

    method RemoveClassMap(classId: int)
      requires Valid()
      modifies this
      ensures Valid() && entries == old(entries) - {classId}
      ensures Contents() == old(Contents()) - {classId}
    {
      entries := entries - {classId};
    }
  }
}
