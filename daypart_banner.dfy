/**
 * The daypart banner: a heading that greets according to the part of the day
 * it is given, through a lookup in an object literal with `'Hello'` as the
 * fallback.
 */
module DaypartBanner {
  import opened Wrappers

  /**
   * What the lookup `{ morning: …, … }[part] || 'Hello'` yields. The object
   * literal inherits from `Object.prototype`, so a `part` naming one of its
   * methods finds that (truthy) function, and `'__proto__'` finds the
   * prototype object itself.
   */
  datatype Greeting = Words(text: string) | InheritedMethod | PrototypeObject

  /** The methods every object literal inherits from `Object.prototype`. */
  predicate IsPrototypeMethod(key: string) {
    key in {"constructor", "hasOwnProperty", "isPrototypeOf", "propertyIsEnumerable",
            "toString", "toLocaleString", "valueOf",
            "__defineGetter__", "__defineSetter__", "__lookupGetter__", "__lookupSetter__"}
  }

  /** One of the four keys the literal defines. */
  predicate IsDaypart(key: string) {
    key in {"morning", "afternoon", "evening", "night"}
  }

  /** The greeting for `part`; `None` is a missing `part` (`undefined` or `null`). */
  function GreetingFor(part: Option<string>): (g: Greeting)
    ensures part == Some("morning") ==> g == Words("Good morning")
    ensures part == Some("afternoon") ==> g == Words("Good afternoon")
    ensures part == Some("evening") ==> g == Words("Good evening")
    ensures part == Some("night") ==> g == Words("Good night")
    ensures g == Words("Hello") <==> part.None? || !(IsDaypart(part.value) || IsPrototypeMethod(part.value) || part.value == "__proto__")
    ensures g.Words? ==> g.text in {"Good morning", "Good afternoon", "Good evening", "Good night", "Hello"}
    ensures g == InheritedMethod <==> part.Some? && IsPrototypeMethod(part.value)
    ensures g == PrototypeObject <==> part == Some("__proto__")
  {
    match part
    case None => Words("Hello")
    case Some(key) =>
      if key == "morning" then Words("Good morning")
      else if key == "afternoon" then Words("Good afternoon")
      else if key == "evening" then Words("Good evening")
      else if key == "night" then Words("Good night")
      else if IsPrototypeMethod(key) then InheritedMethod
      else if key == "__proto__" then PrototypeObject
      else Words("Hello")
  }

  /**
   * The `<h1>` text `{greeting}, MindMate`. React renders nothing for a
   * function child, and refuses to render an object child at all (`None`).
   */
  function Heading(part: Option<string>): (h: Option<string>)
    ensures h.None? <==> part == Some("__proto__")
    ensures h.Some? ==> |h.value| >= 10 && h.value[|h.value| - 10..] == ", MindMate"
    ensures GreetingFor(part).Words? ==> h.Some? && h.value[..|h.value| - 10] == GreetingFor(part).text
    ensures GreetingFor(part) == InheritedMethod ==> h == Some(", MindMate")
  {
    match GreetingFor(part)
    case Words(text) =>
      assert (text + ", MindMate")[..|text|] == text;
      Some(text + ", MindMate")
    case InheritedMethod => Some(", MindMate")
    case PrototypeObject => None
  }
}
