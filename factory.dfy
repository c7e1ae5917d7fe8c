/** Metric-name resolution (GhidraMetricsFactory): display names map to
    lookup names, lookup names to manager classes, and an inverse table maps
    each manager class back to its lookup name. The reflective construction
    of managers is not part of this model. */
module Factory {
  import opened Wrappers
  import McCabe

  /** Manager classes: the three the tables name, and GMSimilarityManager,
      which is a manager class that neither table lists. */
  datatype ManagerClass = HalsteadManager | NCDManager | McCabeManager | SimilarityManager

  const HalsteadName: string := "Halstead"
  const HalsteadLookupName: string := "halstead"
  const NCDName: string := "NCD"
  const NCDLookupName: string := "ncd"

  /** metricNamesLookupTable: display name -> lookup name. */
  const MetricNamesTable: map<string, string> :=
    map[HalsteadName := HalsteadLookupName, NCDName := NCDLookupName, McCabe.Name := McCabe.LookupName]

  /** managersLookupTable: lookup name -> manager class. */
  const ManagersTable: map<string, ManagerClass> :=
    map[HalsteadLookupName := HalsteadManager, NCDLookupName := NCDManager, McCabe.LookupName := McCabeManager]

  predicate Injective(m: map<string, ManagerClass>)
  {
    forall a, b :: a in m && b in m && m[a] == m[b] ==> a == b
  }

  /** The stream collect with Collectors.toMap(value, key): the table with keys
      and values swapped, or IllegalStateException when two keys share a value. */
  function Invert(m: map<string, ManagerClass>): (r: Result<map<ManagerClass, string>, string>)
    ensures r.Ok? <==> Injective(m)
    ensures r.Ok? ==> r.value.Keys == m.Values
    ensures r.Ok? ==> forall k :: k in m ==> r.value[m[k]] == k
  {
    if Injective(m) then
      var inv := map c | c in m.Values :: var k :| k in m && m[k] == c; k;
      assert forall k :: k in m ==> inv[m[k]] == k by {
        forall k | k in m ensures inv[m[k]] == k {
          var j :| j in m && m[j] == m[k] && inv[m[k]] == j;
        }
      }
      Ok(inv)
    else Err("IllegalStateException: duplicate key")
  }

  /** inverseManagersLookupTable. */
  const InverseManagersTable: map<ManagerClass, string> := Invert(ManagersTable).value

  /** metricLookupNameByManager: HashMap.get, null for a class not in the table. */
  function MetricLookupNameByManager(c: ManagerClass): (r: Option<string>)
    ensures r.Some? <==> c in ManagersTable.Values
    ensures r.Some? ==> r.value in ManagersTable && ManagersTable[r.value] == c
    ensures r.None? <==> c == SimilarityManager
  {
    assert Injective(ManagersTable);
    assert c != SimilarityManager ==> c in ManagersTable.Values by {
      if c == HalsteadManager {
        assert ManagersTable[HalsteadLookupName] == c;
      } else if c == NCDManager {
        assert ManagersTable[NCDLookupName] == c;
      } else if c == McCabeManager {
        assert ManagersTable[McCabe.LookupName] == c;
      }
    }
    if c in InverseManagersTable then Some(InverseManagersTable[c]) else None
  }

  /** lookupManagerByMetricName: a lookup name resolves directly, a display
      name through its lookup name; anything else raises an error. Matching is
      exact (case-sensitive), and the recursion goes at most one level deep. */
  function LookupManagerByMetricName(metricName: string): (r: Result<ManagerClass, string>)
    ensures r.Ok? <==> metricName in ManagersTable || metricName in MetricNamesTable
    ensures r.Ok? && metricName in ManagersTable ==> MetricLookupNameByManager(r.value) == Some(metricName)
    ensures r.Ok? && metricName !in ManagersTable ==> MetricLookupNameByManager(r.value) == Some(MetricNamesTable[metricName])
    decreases if metricName in ManagersTable then 0 else 1
  {
    if metricName in ManagersTable then Ok(ManagersTable[metricName])
    else if metricName in MetricNamesTable then LookupManagerByMetricName(MetricNamesTable[metricName])
    else Err("No metrics for name: '" + metricName + "'")
  }

  /** allMetricNames: the key set of the names table. */
  function AllMetricNames(): (names: set<string>)
    ensures forall n :: n in names ==> LookupManagerByMetricName(n).Ok?
  {
    MetricNamesTable.Keys
  }

  /** allMetricManagers: the values of the managers table. */
  function AllMetricManagers(): (r: set<ManagerClass>)
    ensures r == {HalsteadManager, NCDManager, McCabeManager}
    ensures SimilarityManager !in r
  {
    assert ManagersTable[HalsteadLookupName] == HalsteadManager;
    assert ManagersTable[NCDLookupName] == NCDManager;
    assert ManagersTable[McCabe.LookupName] == McCabeManager;
    ManagersTable.Values
  }

  /** Every names-table value is a managers-table key, so a display name
      resolves without a second recursive step. */
  lemma NamesResolveToLookupNames()
    ensures forall n :: n in MetricNamesTable ==> MetricNamesTable[n] in ManagersTable
    ensures forall n :: n in MetricNamesTable ==> n !in ManagersTable
  {
  }

  /** A display name resolves to the manager of its lookup name. */
  lemma DisplayNameResolves(n: string)
    requires n in MetricNamesTable
    ensures LookupManagerByMetricName(n) == Ok(ManagersTable[MetricNamesTable[n]])
  {
  }

  /** The inverse table round-trips both ways: lookup name to class and back,
      and a tabled class to its lookup name and back. */
  lemma InverseRoundTrip(k: string, c: ManagerClass)
    ensures k in ManagersTable ==> MetricLookupNameByManager(ManagersTable[k]) == Some(k)
    ensures c in ManagersTable.Values ==>
      MetricLookupNameByManager(c).Some? && MetricLookupNameByManager(c).value in ManagersTable &&
      ManagersTable[MetricLookupNameByManager(c).value] == c
  {
    assert Injective(ManagersTable);
  }

  /** GMSimilarityManager is a manager class in neither table: it has no
      lookup name and is not among allMetricManagers. */
  lemma UntabledManager()
    ensures MetricLookupNameByManager(SimilarityManager) == None
    ensures SimilarityManager !in AllMetricManagers()
    ensures forall k :: k in ManagersTable ==> ManagersTable[k] != SimilarityManager
  {
  }

  /** Exactly the three display names, and the managers of exactly the
      tabled classes, each of which has a lookup name. */
  lemma AllNamesAndManagers(c: ManagerClass)
    ensures AllMetricNames() == {"Halstead", "NCD", "McCabe"}
    ensures c in AllMetricManagers() <==> MetricLookupNameByManager(c).Some?
  {
  }

  /** Names are matched exactly: other letter cases are unknown. */
  lemma LookupIsCaseSensitive()
    ensures LookupManagerByMetricName("McCabe") == Ok(McCabeManager)
    ensures LookupManagerByMetricName("mccabe") == Ok(McCabeManager)
    ensures LookupManagerByMetricName("MCCABE").Err?
    ensures LookupManagerByMetricName("Ncd").Err?
  {
    assert "MCCABE" != "McCabe" && "MCCABE" != "mccabe";
    assert "Ncd" != "NCD" && "Ncd" != "ncd";
  }
}
