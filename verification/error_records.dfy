/** The error records the forms fill (`Record<string, string>` built with one
    `if` per rule): starting from an empty record, each rule that fails stores its
    message under its field. */
module ErrorRecords {

  /** The record after one rule: the failing rule's message is stored under its
      field; every other field keeps its entry or its absence. */
  function WithRule<K(!new)>(m: map<K, string>, k: K, fails: bool, message: string): (r: map<K, string>)
    ensures k in r <==> k in m || fails
    ensures fails ==> r[k] == message
    ensures !fails ==> r == m
    ensures forall j :: j != k ==> (j in r <==> j in m)
    ensures forall j :: j != k && j in m ==> r[j] == m[j]
  {
    if fails then m[k := message] else m
  }

  /** One `if (fails) newErrors[k] = message` statement of a `validate`. */
  method CheckRule<K(!new)>(m: map<K, string>, k: K, fails: bool, message: string) returns (r: map<K, string>)
    ensures r == WithRule(m, k, fails, message)
  {
    r := m;
    if fails {
      r := r[k := message];
    }
  }
}
