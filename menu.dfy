// The widget logic of menu.py: clamping, variables shared between widgets
// and the attributes they drive, the submenu registry, and the state
// changes of buttons, sliders and check boxes. Drawing is not modelled.

module Menus {
  import opened Common

  /** A value a shared variable may hold: Python's bool, int, float or str. */
  datatype Value = Bool(b: bool) | Int(i: int) | Float(f: real) | Str(s: string)

  /** An object whose attributes a shared variable drives, by identity. */
  type ObjectId = nat

  /** normalize: `value` clamped to [minimum, maximum]. */
  function Normalize(value: real, minimum: real, maximum: real): (r: real)
    ensures value < minimum ==> r == minimum
    ensures minimum <= value && value > maximum ==> r == maximum
    ensures minimum <= value <= maximum ==> r == value
    ensures minimum <= maximum ==> minimum <= r <= maximum
  {
    if value < minimum then minimum
    else if value > maximum then maximum
    else value
  }

  lemma NormalizeIdempotent(value: real, minimum: real, maximum: real)
    requires minimum <= maximum
    ensures Normalize(Normalize(value, minimum, maximum), minimum, maximum) == Normalize(value, minimum, maximum)
  {
  }

  /** The number Python's arithmetic sees in a value: a bool counts as 0 or 1, a string is none. */
  function Numeric(v: Value): (r: Option<real>)
    ensures r.None? <==> v.Str?
  {
    match v
    case Bool(b) => Some(if b then 1.0 else 0.0)
    case Int(i) => Some(i as real)
    case Float(f) => Some(f)
    case Str(_) => None
  }

  /** Python's int() of a float: truncation toward zero. */
  function Trunc(v: real): (r: int)
    ensures 0.0 <= v ==> r as real <= v < r as real + 1.0
    ensures v < 0.0 ==> r as real - 1.0 < v <= r as real
  {
    if v >= 0.0 then v.Floor else -((-v).Floor)
  }

  lemma TruncOfInt(i: int)
    ensures Trunc(i as real) == i
  {
  }

  // -----------------------------------------------------------------------
  // SharedVariable
  // -----------------------------------------------------------------------

  /** The attributes of every object, keyed by (object, attribute name). */
  class Attributes {
    var values: map<(ObjectId, string), Value>

    constructor(values: map<(ObjectId, string), Value>)
      ensures this.values == values
    {
      this.values := values;
    }
  }

  /** The (object, attribute) pairs an association map names. */
  function AssociatedKeys(associated: map<ObjectId, string>): set<(ObjectId, string)> {
    set o | o in associated :: (o, associated[o])
  }

  /** The attributes after writing `v` into every associated attribute, and into nothing else. */
  function Written(attrs: map<(ObjectId, string), Value>, associated: map<ObjectId, string>, v: Value)
    : (r: map<(ObjectId, string), Value>)
    ensures forall o :: o in associated ==> (o, associated[o]) in r && r[(o, associated[o])] == v
    ensures forall k :: k in r <==> k in attrs || (k.0 in associated && associated[k.0] == k.1)
    ensures forall k :: k in attrs && !(k.0 in associated && associated[k.0] == k.1) ==> r[k] == attrs[k]
  {
    map k | k in attrs.Keys + AssociatedKeys(associated) ::
      if k.0 in associated && associated[k.0] == k.1 then v else attrs[k]
  }

  function Restrict(associated: map<ObjectId, string>, objects: set<ObjectId>): (r: map<ObjectId, string>)
    ensures forall o :: o in r <==> o in associated && o in objects
    ensures forall o :: o in r ==> r[o] == associated[o]
  {
    map o | o in associated && o in objects :: associated[o]
  }

  /** Writing one more associate's attribute extends the writes so far. */
  lemma WrittenStep(attrs: map<(ObjectId, string), Value>, associated: map<ObjectId, string>,
                    done: set<ObjectId>, o: ObjectId, v: Value)
    requires o in associated && o !in done
    ensures Written(attrs, Restrict(associated, done + {o}), v)
         == Written(attrs, Restrict(associated, done), v)[(o, associated[o]) := v]
  {
    var before := Restrict(associated, done);
    var after := Restrict(associated, done + {o});
    var lhs := Written(attrs, after, v);
    var rhs := Written(attrs, before, v)[(o, associated[o]) := v];
    forall k | k in lhs
      ensures k in rhs && lhs[k] == rhs[k]
    {
      if k.0 in after && after[k.0] == k.1 {
      } else {
        assert k in attrs;
      }
    }
    assert lhs.Keys == rhs.Keys;
  }

  /** A variable shared by widgets and the object attributes they drive. */
  class SharedVariable {
    var value: Value
    /** Each associated object and the name of the attribute of it that follows the value. */
    var associated: map<ObjectId, string>

    constructor(value: Value)
      ensures this.value == value && associated == map[]
    {
      this.value := value;
      associated := map[];
    }

    /** add_associate: `obj`'s `attribute` follows the value from now on, replacing any earlier attribute of it. */
    method AddAssociate(obj: ObjectId, attribute: string)
      modifies this`associated
      ensures associated == old(associated)[obj := attribute]
    {
      associated := associated[obj := attribute];
    }

    /** remove_associate: drops `obj`, and does nothing when it is not associated. */
    method RemoveAssociate(obj: ObjectId)
      modifies this`associated
      ensures obj !in associated
      ensures forall o :: o != obj ==> (o in associated <==> o in old(associated))
      ensures forall o :: o in associated ==> associated[o] == old(associated)[o]
      ensures obj !in old(associated) ==> associated == old(associated)
    {
      if obj in associated {
        associated := associated - {obj};
      }
    }

    /** Assigning `value`: stores it, then writes it into each associated attribute (update). */
    method SetValue(v: Value, store: Attributes)
      modifies this`value, store
      ensures value == v
      ensures store.values == Written(old(store.values), associated, v)
    {
      value := v;
      var pending := associated.Keys;
      ghost var done: set<ObjectId> := {};
      assert Written(old(store.values), Restrict(associated, done), v) == store.values;
      while pending != {}
        invariant pending + done == associated.Keys && pending !! done
        invariant value == v
        invariant store.values == Written(old(store.values), Restrict(associated, done), v)
        decreases pending
      {
        var o :| o in pending;
        WrittenStep(old(store.values), associated, done, o, v);
        store.values := store.values[(o, associated[o]) := v];
        pending := pending - {o};
        done := done + {o};
      }
      assert Restrict(associated, done) == associated;
    }
  }

  // -----------------------------------------------------------------------
  // Menu and its submenus
  // -----------------------------------------------------------------------

  /** A menu widget, by identity. */
  type ElementId = nat
  /** A background texture, by identity. */
  type TextureId = nat

  datatype SubMenu = SubMenu(name: string, isMainMenu: bool, elements: seq<ElementId>, background: Option<TextureId>)

  /** The name add_submenu registers a submenu under: the title when it is truthy, else the submenu's own name. */
  function SubmenuKey(submenu: SubMenu, title: Option<string>): (key: string)
    ensures title.Some? && title.value != "" ==> key == title.value
    ensures title.None? || title.value == "" ==> key == submenu.name
  {
    if title.Some? && title.value != "" then title.value else submenu.name
  }

  class Menu {
    var submenus: map<string, SubMenu>
    var currentElements: seq<ElementId>
    var currentBackground: Option<TextureId>

    /** Menu.__init__: registers the main menu under its name and makes it current. */
    constructor(mainMenu: SubMenu)
      ensures submenus == map[mainMenu.name := mainMenu]
      ensures currentElements == mainMenu.elements && currentBackground == mainMenu.background
    {
      submenus := map[];
      currentElements := [];
      currentBackground := None;
      new;
      AddSubmenu(mainMenu, None);
      var raised := ToggleSubmenu(mainMenu.name);
    }

    method AddSubmenu(submenu: SubMenu, title: Option<string>)
      modifies this`submenus
      ensures submenus == old(submenus)[SubmenuKey(submenu, title) := submenu]
    {
      submenus := submenus[SubmenuKey(submenu, title) := submenu];
    }

    /** toggle_submenu: shows the named submenu; an unknown name raises KeyError and shows the same as before. */
    method ToggleSubmenu(name: string) returns (raised: Option<Error>)
      modifies this`currentElements, this`currentBackground
      ensures name in submenus ==>
        raised == None && currentElements == submenus[name].elements && currentBackground == submenus[name].background
      ensures name !in submenus ==>
        raised == Some(KeyError) && currentElements == old(currentElements) && currentBackground == old(currentBackground)
    {
      if name !in submenus {
        return Some(KeyError);
      }
      currentElements := submenus[name].elements;
      currentBackground := submenus[name].background;
      raised := None;
    }
  }

  // -----------------------------------------------------------------------
  // Button
  // -----------------------------------------------------------------------

  function Abs(x: real): real {
    if x < 0.0 then -x else x
  }

  /** The width a Button gets: the given one, else one font size per character of its name. */
  function ButtonWidth(name: string, width: Option<real>, fontSize: real): (w: real)
    ensures width.None? ==> w == |name| as real * fontSize
    ensures width.Some? ==> w == width.value
  {
    if width.None? then |name| as real * fontSize else width.value
  }

  /** The height a Button gets: the given one, else three font sizes. */
  function ButtonHeight(height: Option<real>, fontSize: real): (h: real)
    ensures height.None? ==> h == 3.0 * fontSize
    ensures height.Some? ==> h == height.value
  {
    if height.None? then 3.0 * fontSize else height.value
  }

  class Button {
    const name: string
    const centerX: real
    const centerY: real
    const fontSize: real
    const width: real
    const height: real
    const left: real
    const right: real
    const top: real
    const bottom: real
    var mouseAbove: bool

    /** The edges lie half the width and half the height away from the center. */
    predicate Valid() {
      && left == centerX - width / 2.0 && right == left + width
      && top == centerY + height / 2.0 && bottom == top - height
    }

    constructor(name: string, x: real, y: real, width: Option<real>, height: Option<real>, fontSize: real)
      ensures Valid()
      ensures this.name == name && centerX == x && centerY == y && this.fontSize == fontSize
      ensures this.width == ButtonWidth(name, width, fontSize) && this.height == ButtonHeight(height, fontSize)
      ensures right - left == this.width && top - bottom == this.height
      ensures !mouseAbove
    {
      this.name := name;
      centerX := x;
      centerY := y;
      this.fontSize := fontSize;
      var w := ButtonWidth(name, width, fontSize);
      var h := ButtonHeight(height, fontSize);
      this.width := w;
      this.height := h;
      left := x - w / 2.0;
      right := x - w / 2.0 + w;
      top := y + h / 2.0;
      bottom := y + h / 2.0 - h;
      mouseAbove := false;
    }

    /** check_if_cursor_above: the cursor lies strictly inside the button. */
    predicate CursorAbove(cursorX: real, cursorY: real) {
      left < cursorX < right && bottom < cursorY < top
    }

    /** The hit test holds exactly within half the width and half the height of the center, borders excluded. */
    lemma CursorAboveCentered(cursorX: real, cursorY: real)
      requires Valid()
      ensures CursorAbove(cursorX, cursorY)
          <==> Abs(cursorX - centerX) < width / 2.0 && Abs(cursorY - centerY) < height / 2.0
    {
    }

    /** MenuElement.on_mouse_over: the hover flag flips. */
    method OnMouseOver()
      modifies this`mouseAbove
      ensures mouseAbove == !old(mouseAbove)
    {
      mouseAbove := !mouseAbove;
    }
  }

  // -----------------------------------------------------------------------
  // Slider
  // -----------------------------------------------------------------------

  /**
   * set_variable: the value at `position` on a rail starting at `left`,
   * kept a float when the minimum is a float and truncated to an int
   * otherwise; a zero scale divides by zero.
   */
  function SliderValue(minimum: Value, left: real, scale: real, position: real): (r: Result<Value>)
    requires !minimum.Str?
    ensures r.Err? <==> scale == 0.0
    ensures r.Err? ==> r.error == ZeroDivisionError
    ensures r.Ok? ==> (r.value.Float? <==> minimum.Float?) && (r.value.Int? <==> !minimum.Float?)
  {
    if scale == 0.0 then Err(ZeroDivisionError)
    else
      var v := Numeric(minimum).value + (position - left) / scale;
      if minimum.Float? then Ok(Float(v)) else Ok(Int(Trunc(v)))
  }

  /** A number as set_variable returns it for a minimum of the given kind. */
  function AsKindOf(minimum: Value, v: real): Value {
    if minimum.Float? then Float(v) else Int(Trunc(v))
  }

  /**
   * With scale = width / (max − min), the left end of the rail gives the
   * minimum and the right end the maximum.
   */
  lemma SliderValueAtEnds(minimum: Value, maximum: Value, left: real, width: real)
    requires !minimum.Str? && !maximum.Str?
    requires Numeric(maximum).value != Numeric(minimum).value && width != 0.0
    ensures var scale := width / (Numeric(maximum).value - Numeric(minimum).value);
      && SliderValue(minimum, left, scale, left) == Ok(AsKindOf(minimum, Numeric(minimum).value))
      && SliderValue(minimum, left, scale, left + width) == Ok(AsKindOf(minimum, Numeric(maximum).value))
  {
    var lo, hi := Numeric(minimum).value, Numeric(maximum).value;
    ScaleInverts(lo, hi, width);
  }

  /** Walking the whole width at scale width / (hi − lo) covers hi − lo. */
  lemma ScaleInverts(lo: real, hi: real, width: real)
    requires hi != lo && width != 0.0
    ensures width / (hi - lo) != 0.0
    ensures width / (width / (hi - lo)) == hi - lo
  {
    var d := hi - lo;
    var scale := width / d;
    assert scale * d == width;
    assert (width / scale) * scale == width;
  }

  /** An int minimum comes back unchanged at the left end of the rail. */
  lemma IntMinimumAtLeft(i: int, left: real, scale: real)
    requires scale != 0.0
    ensures SliderValue(Int(i), left, scale, left) == Ok(Int(i))
  {
    TruncOfInt(i);
  }

  /**
   * The slider starts at left + start · scale, so mapping that position
   * back gives min + start: the start value itself only when min is zero.
   */
  lemma StartRoundTrip(minimum: Value, left: real, scale: real, start: real)
    requires !minimum.Str? && scale != 0.0
    ensures SliderValue(minimum, left, scale, left + start * scale) == Ok(AsKindOf(minimum, Numeric(minimum).value + start))
    ensures minimum.Float? ==>
      (SliderValue(minimum, left, scale, left + start * scale) == Ok(Float(start)) <==> minimum.f == 0.0)
  {
    assert (left + start * scale - left) / scale == start;
  }

  class Slider {
    const centerX: real
    const centerY: real
    const width: real
    const height: real
    const left: real
    const right: real
    const variable: SharedVariable
    const variableMin: Value
    const variableMax: Value
    const scale: real
    var sliderPosition: real
    var dragged: bool
    var varCurVal: Value
    var mouseAbove: bool

    predicate Valid() {
      && left == centerX - width / 2.0 && right == left + width
      && !variableMin.Str? && !variableMax.Str?
      && Numeric(variableMax).value != Numeric(variableMin).value
      && scale == width / (Numeric(variableMax).value - Numeric(variableMin).value)
    }

    constructor(x: real, y: real, width: real, height: real, variable: SharedVariable,
                minimum: Value, maximum: Value, scale: real, position: real)
      ensures centerX == x && centerY == y && this.width == width && this.height == height
      ensures left == x - width / 2.0 && right == left + width
      ensures this.variable == variable && variableMin == minimum && variableMax == maximum
      ensures this.scale == scale && sliderPosition == position
      ensures !dragged && !mouseAbove && varCurVal == variable.value
    {
      centerX := x;
      centerY := y;
      this.width := width;
      this.height := height;
      left := x - width / 2.0;
      right := x - width / 2.0 + width;
      this.variable := variable;
      variableMin := minimum;
      variableMax := maximum;
      this.scale := scale;
      sliderPosition := position;
      dragged := false;
      varCurVal := variable.value;
      mouseAbove := false;
    }

    /**
     * Slider.__init__: associates `obj`'s `attribute` with the variable
     * (a new one holding `start` unless one is shared), then computes the
     * scale and the start position; a str bound or value raises TypeError
     * and equal bounds ZeroDivisionError, after the association was made.
     */
    static method Create(obj: ObjectId, attribute: string, start: Value, minimum: Value, maximum: Value,
                         x: real, y: real, width: real, height: real, shared: Option<SharedVariable>)
      returns (r: Result<Slider>)
      modifies if shared.Some? then {shared.value} else {}
      ensures shared.Some? ==> shared.value.associated == old(shared.value.associated)[obj := attribute]
      ensures minimum.Str? || maximum.Str? ==> r == Err(TypeError)
      ensures !minimum.Str? && !maximum.Str? && Numeric(maximum) == Numeric(minimum) ==> r == Err(ZeroDivisionError)
      ensures shared.Some? && old(shared.value.value).Str? && !minimum.Str? && !maximum.Str? ==> r.Err?
      ensures shared.Some? ==> shared.value.value == old(shared.value.value)
      ensures !minimum.Str? && !maximum.Str? && Numeric(maximum) != Numeric(minimum) ==>
        && (r == Err(TypeError) <==> old(if shared.Some? then shared.value.value else start).Str?)
        && (r.Ok? <==> !old(if shared.Some? then shared.value.value else start).Str?)
      ensures r.Ok? ==>
        && fresh(r.value) && r.value.Valid()
        && obj in r.value.variable.associated && r.value.variable.associated[obj] == attribute
        && !r.value.variable.value.Str?
        && r.value.sliderPosition == r.value.left + Numeric(r.value.variable.value).value * r.value.scale
        && r.value.varCurVal == r.value.variable.value && !r.value.dragged
        && (shared.Some? ==> r.value.variable == shared.value)
        && (shared.None? ==> r.value.variable.value == start)
    {
      var v: SharedVariable;
      if shared.Some? {
        v := shared.value;
      } else {
        v := new SharedVariable(start);
      }
      v.AddAssociate(obj, attribute);
      if minimum.Str? || maximum.Str? {
        return Err(TypeError);
      }
      var lo, hi := Numeric(minimum).value, Numeric(maximum).value;
      if hi == lo {
        return Err(ZeroDivisionError);
      }
      var scale := width / (hi - lo);
      if v.value.Str? {
        return Err(TypeError);
      }
      var s := new Slider(x, y, width, height, v, minimum, maximum, scale,
                          x - width / 2.0 + Numeric(v.value).value * scale);
      return Ok(s);
    }

    /** on_press: dragging starts. */
    method OnPress()
      modifies this`dragged
      ensures dragged
    {
      dragged := true;
    }

    /**
     * on_drag: the handle moves by `drag` but stays on the rail, and the
     * value it points at becomes current; a zero scale raises
     * ZeroDivisionError after the handle moved.
     */
    method OnDrag(drag: real) returns (raised: Option<Error>)
      requires Valid()
      modifies this`sliderPosition, this`varCurVal
      ensures sliderPosition == Normalize(old(sliderPosition) + drag, left, right)
      ensures left <= right ==> left <= sliderPosition <= right
      ensures var v := SliderValue(variableMin, left, scale, sliderPosition);
        && (v.Err? ==> raised == Some(v.error) && varCurVal == old(varCurVal))
        && (v.Ok? ==> raised == None && varCurVal == v.value)
    {
      sliderPosition := Normalize(sliderPosition + drag, left, right);
      var v := SliderValue(variableMin, left, scale, sliderPosition);
      if v.Err? {
        return Some(v.error);
      }
      varCurVal := v.value;
      raised := None;
    }

    /** on_release: only a dragged slider stops and hands its current value to the variable. */
    method OnRelease(store: Attributes)
      modifies this`dragged, variable, store
      ensures !dragged
      ensures old(dragged) ==>
        variable.value == varCurVal && store.values == Written(old(store.values), old(variable.associated), varCurVal)
      ensures !old(dragged) ==> unchanged(variable, store)
      ensures variable.associated == old(variable.associated)
    {
      if dragged {
        dragged := false;
        variable.SetValue(varCurVal, store);
      }
    }

    /** on_mouse_over: the hover flag flips, and a slider the cursor has left is released. */
    method OnMouseOver(store: Attributes)
      modifies this`mouseAbove, this`dragged, variable, store
      ensures mouseAbove == !old(mouseAbove)
      ensures !mouseAbove ==> !dragged
      ensures !mouseAbove && old(dragged) ==>
        variable.value == varCurVal && store.values == Written(old(store.values), old(variable.associated), varCurVal)
      ensures mouseAbove || !old(dragged) ==> dragged == old(dragged) && unchanged(variable, store)
    {
      mouseAbove := !mouseAbove;
      if !mouseAbove {
        OnRelease(store);
      }
    }
  }

  // -----------------------------------------------------------------------
  // CheckBox
  // -----------------------------------------------------------------------

  class CheckBox {
    var state: bool
    const variable: SharedVariable
    const yesValue: Value
    const noValue: Value
    var mouseAbove: bool

    /**
     * CheckBox.__init__: the checked and unchecked values default to True
     * and False, and `obj`'s `attribute` is associated with the variable.
     */
    constructor(obj: ObjectId, attribute: string, start: Value, checkedValue: Option<Value>,
                uncheckedValue: Option<Value>, state: bool, shared: Option<SharedVariable>)
      modifies if shared.Some? then {shared.value} else {}
      ensures this.state == state && !mouseAbove
      ensures yesValue == (if checkedValue.None? then Bool(true) else checkedValue.value)
      ensures noValue == (if uncheckedValue.None? then Bool(false) else uncheckedValue.value)
      ensures shared.Some? ==> variable == shared.value
      ensures shared.None? ==> fresh(variable) && variable.value == start
      ensures variable.associated == old(if shared.Some? then shared.value.associated else map[])[obj := attribute]
      ensures variable.value == old(if shared.Some? then shared.value.value else start)
    {
      this.state := state;
      var v: SharedVariable;
      if shared.Some? {
        v := shared.value;
      } else {
        v := new SharedVariable(start);
      }
      variable := v;
      yesValue := if checkedValue.None? then Bool(true) else checkedValue.value;
      noValue := if uncheckedValue.None? then Bool(false) else uncheckedValue.value;
      mouseAbove := false;
      new;
      v.AddAssociate(obj, attribute);
    }

    /** on_press: the state flips and the variable takes the checked or the unchecked value. */
    method OnPress(store: Attributes)
      modifies this`state, variable, store
      ensures state == !old(state)
      ensures variable.value == (if state then yesValue else noValue)
      ensures variable.associated == old(variable.associated)
      ensures store.values == Written(old(store.values), variable.associated, variable.value)
    {
      state := !state;
      variable.SetValue(if state then yesValue else noValue, store);
    }

    /** Two presses leave the state where it was and the variable at the value for that state. */
    method PressTwice(store: Attributes)
      modifies this`state, variable, store
      ensures state == old(state)
      ensures variable.value == (if state then yesValue else noValue)
    {
      OnPress(store);
      OnPress(store);
    }

    /** MenuElement.on_mouse_over: the hover flag flips. */
    method OnMouseOver()
      modifies this`mouseAbove
      ensures mouseAbove == !old(mouseAbove)
    {
      mouseAbove := !mouseAbove;
    }
  }
}
