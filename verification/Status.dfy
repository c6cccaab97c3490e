/** Health status codes shared by the registry, the health manager and the pickers. */
module Status {

  datatype Code = Unspecified | Healthy | Degraded | Ejected | Probing | Dead | Unavailable

  function Normalized(c: Code): Code {
    if c.Unspecified? then Healthy else c
  }

  predicate Routable(c: Code) {
    Normalized(c) in {Healthy, Degraded, Probing}
  }

  predicate NormalTraffic(c: Code) {
    Normalized(c) in {Healthy, Degraded}
  }

  predicate IsProbing(c: Code) {
    c == Probing
  }
}
