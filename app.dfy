/**
 * The application's small pure helpers: the range check returning an
 * outcome result, the retry-with-one-less wrapper around it, the recursive
 * C-string length, and the Rectangle built from strongly typed width and
 * height.
 */
module App {

  /** C `int` on the target: 32-bit two's complement. */
  type Int32 = x: int | -0x8000_0000 <= x < 0x8000_0000

  datatype MyError = TooLow | TooHigh | NotANumber

  /** result<int, MyError>: a value or an error, never both. */
  datatype Result = Success(value: Int32) | Failure(error: MyError)

  /** within_range: accepts 2..10 and says on which side any other value falls. */
  function WithinRange(i: Int32): (r: Result)
    ensures r == Failure(TooLow) <==> i < 2
    ensures r == Failure(TooHigh) <==> i > 10
    ensures r.Success? <==> 2 <= i <= 10
    ensures r.Success? ==> r.value == i
    ensures r != Failure(NotANumber)
  {
    if 2 > i then Failure(TooLow)
    else if i > 10 then Failure(TooHigh)
    else Success(i)
  }

  /**
   * test_val: i itself when it is in range, otherwise the range check of
   * i - 1, whose error OUTCOME_TRYX returns unchanged. For the smallest int,
   * i - 1 overflows, which C leaves undefined.
   */
  function TestVal(i: Int32): (r: Result)
    requires i > -0x8000_0000
    ensures WithinRange(i).Success? ==> r == Success(i)
    ensures WithinRange(i).Failure? ==> r == WithinRange(i - 1)
  {
    var l := i;
    var ret := WithinRange(i);
    if ret.Failure? then
      match WithinRange(i - 1)
      case Failure(e) => Failure(e)
      case Success(v) => Success(v)
    else
      Success(l)
  }

  /** The cases of test_val spelled out: it accepts exactly 2..11, and 11 becomes 10. */
  lemma TestValCases(i: Int32)
    requires i > -0x8000_0000
    ensures TestVal(i).Success? <==> 2 <= i <= 11
    ensures i == 11 ==> TestVal(i) == Success(10)
    ensures i < 2 ==> TestVal(i) == Failure(TooLow)
    ensures i >= 12 ==> TestVal(i) == Failure(TooHigh)
    ensures TestVal(i).Success? ==> TestVal(i).value == if i == 11 then 10 else i
  {
  }

  /** length: the number of characters before the first NUL, counted by recursion. */
  function Length(s: string): (n: nat)
    requires '\0' in s
    ensures n < |s| && s[n] == '\0'
    ensures forall k :: 0 <= k < n ==> s[k] != '\0'
    decreases |s|
  {
    if s[0] != '\0' then
      assert '\0' in s[1..] by {
        var j :| 0 <= j < |s| && s[j] == '\0';
        assert s[1..][j - 1] == '\0';
      }
      1 + Length(s[1..])
    else
      0
  }

  /** Characters after the terminator do not change the length. */
  lemma LengthOfTerminated(body: string, rest: string)
    requires '\0' !in body
    ensures Length(body + ['\0'] + rest) == |body|
  {
    var s := body + ['\0'] + rest;
    assert forall k :: 0 <= k < |body| ==> s[k] == body[k];
    assert s[|body|] == '\0';
  }

  /** fluent::NamedType<int, WidthTag> and <int, HeightTag>: an int that only converts explicitly. */
  datatype Width = Width(value: Int32)
  datatype Height = Height(value: Int32)

  /** Rectangle: stores the unwrapped width and height. */
  datatype Rectangle = Rectangle(width: Int32, height: Int32)
  {
    function GetWidth(): Int32 { width }
    function GetHeight(): Int32 { height }
  }

  function NewRectangle(w: Width, h: Height): (r: Rectangle)
    ensures r.GetWidth() == w.value && r.GetHeight() == h.value
  {
    Rectangle(w.value, h.value)
  }

  /** The getters give back what went in, and exchanging the two sides gives a different rectangle unless they are equal. */
  lemma RectangleRoundTrip(w: Width, h: Height)
    ensures NewRectangle(Width(NewRectangle(w, h).GetWidth()), Height(NewRectangle(w, h).GetHeight())) == NewRectangle(w, h)
    ensures NewRectangle(w, h) == NewRectangle(Width(h.value), Height(w.value)) <==> w.value == h.value
  {
  }
}
