/**
 * The ignore list: the `--ignore-event` option normalised to a list of event
 * names. The option parser hands over nothing, one string (the option given
 * once) or an array of strings (the option given several times).
 */
module IgnoreList {

  /** The value of `args['ignore-event']`. */
  datatype IgnoreOption = Absent | Single(name: string) | Several(names: seq<string>) {

    /** JavaScript truthiness: an absent option and the empty string are
        falsy, every array is truthy. */
    predicate Truthy() {
      match this
      case Absent => false
      case Single(name) => name != ""
      case Several(_) => true
    }
  }

  /** The names the option asks to ignore: an array is used as it is, a single
      non-empty string becomes a one-element list, and an absent option or the
      empty string gives the empty list. */
  function IgnoredEvents(option: IgnoreOption): (r: seq<string>)
    ensures option.Several? ==> r == option.names
    ensures option.Single? ==> forall e :: e in r <==> e == option.name && e != ""
    ensures option.Absent? ==> r == []
    ensures |r| <= 1 || option.Several?
  {
    match option
    case Absent => []
    case Single(name) => if name == "" then [] else [name]
    case Several(names) => names
  }

  /** Starts from `[]`, then pushes the single name or replaces the list by
      the array. */
  method NormaliseIgnoreList(option: IgnoreOption) returns (ignoredEvents: seq<string>)
    ensures ignoredEvents == IgnoredEvents(option)
  {
    ignoredEvents := [];
    if option.Truthy() {
      if option.Single? {
        ignoredEvents := ignoredEvents + [option.name];
      } else {
        ignoredEvents := option.names;
      }
    }
  }
}
