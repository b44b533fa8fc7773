/** The intermediate-representation records the Dockerfile parser produces
    (the classes of glitch/repr/inter.py, which is not part of this model,
    reduced to the fields the parser fills in). */
module DockerIR {

  /** Attribute values are strings, except the `True` of a bare command-line flag. */
  datatype AttrValue = Str(s: string) | Bool(b: bool)

  datatype Attribute = Attribute(name: string, value: AttrValue, hasVariable: bool)

  /** An atomic unit: a named resource of some type (an image, a shell command, a copy). */
  datatype AtomicUnit = AtomicUnit(name: string, unitType: string, attributes: seq<Attribute>, line: int)

  datatype Variable = Variable(name: string, value: string, hasVariable: bool, line: int)

  datatype Comment = Comment(content: string, line: int)

  /** The line of a record whose line the parser never sets. */
  const NoLine: int := -1

  /** A fresh unit, as `AtomicUnit(name, type)` builds it. */
  function NewUnit(name: string, unitType: string): AtomicUnit
  {
    AtomicUnit(name, unitType, [], NoLine)
  }
}
