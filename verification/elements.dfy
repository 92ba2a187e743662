// src/elements.js: the Label, Icon and Button widgets every other widget of
// the dash is built from. A Button lays out an optional icon and an optional
// label side by side in a box; style classes are switched on and off by a
// boolean.
module Elements {
  import opened Common

  /** The size, in pixels, of every icon the dash creates (`Icon.ICON_SIZE`). */
  const IconSize: nat := 24

  /**
   * `style_class_name(active, c)`: after it, `c` is present exactly when
   * `active` holds, and every other class is as it was.
   */
  function WithClass(classes: set<string>, active: bool, c: string): (r: set<string>)
    ensures c in r <==> active
    ensures forall d :: d in r && d != c ==> d in classes
    ensures forall d :: d in classes && d != c ==> d in r
  {
    if active then classes + {c} else classes - {c}
  }

  /** What an Icon shows: a themed icon by name, or a texture handed in by the caller. */
  datatype IconImage = Themed(name: string) | Texture(handle: nat)

  /** `Label`: a text label with its own set of style classes. */
  class Label {
    var text: string
    var classes: set<string>

    constructor (text: string)
      ensures this.text == text && classes == {"classic-label"}
    {
      this.text := text;
      classes := {"classic-label"};
    }

    method StyleClassName(active: bool, c: string)
      modifies this
      ensures classes == WithClass(old(classes), active, c)
      ensures text == old(text)
    {
      classes := WithClass(classes, active, c);
    }
  }

  /** `Icon`: a bin holding one icon image. */
  class Icon {
    var image: IconImage

    constructor (name: string)
      ensures image == Themed(name)
    {
      image := Themed(name);
    }
  }

  /**
   * `Button`: a push button whose box holds an optional icon slot, kept
   * first, and an optional label slot, kept last.
   */
  class Button {
    var box: seq<object>
    var icon: Icon?
    var caption: Label?
    var classes: set<string>

    /** The box holds the icon (if any) followed by the caption (if any), and nothing else. */
    ghost predicate Valid()
      reads this
    {
      box == IconSlot() + CaptionSlot()
    }

    ghost function IconSlot(): seq<object>
      reads this
    {
      if icon == null then [] else [icon as object]
    }

    ghost function CaptionSlot(): seq<object>
      reads this
    {
      if caption == null then [] else [caption as object]
    }

    constructor ()
      ensures Valid()
      ensures icon == null && caption == null && box == []
      ensures classes == {"classic-button"}
    {
      box := [];
      icon := null;
      caption := null;
      classes := {"classic-button"};
    }

    /** `set_label_text`: create the caption at the end of the box, or retext the existing one. */
    method SetLabelText(text: string)
      requires Valid()
      modifies this, caption
      ensures Valid()
      ensures caption != null && caption.text == text
      ensures old(caption) == null ==> fresh(caption) && caption.classes == {"classic-label"} && box == old(box) + [caption]
      ensures old(caption) != null ==> caption == old(caption) && caption.classes == old(caption.classes) && box == old(box)
      ensures icon == old(icon) && classes == old(classes)
    {
      if caption == null {
        var l := new Label(text);
        caption := l;
        box := box + [l];
      } else {
        caption.text := text;
      }
    }

    /** `delete_label_text`: remove the caption, if there is one, and nothing else. */
    method DeleteLabelText()
      requires Valid()
      modifies this
      ensures Valid()
      ensures caption == null && icon == old(icon) && classes == old(classes)
      ensures box == if old(caption) == null then old(box) else Without(old(box), old(caption))
    {
      if caption != null {
        if icon == null {
          assert box == [caption as object] && box[..0] == [];
          assert Without(box, caption as object) == [];
        } else {
          assert box == [icon as object, caption as object] && box[..1] == [icon as object];
          assert Without(box, caption as object) == [icon as object];
        }
        box := Without(box, caption);
        caption := null;
      }
    }

    /** `add_label_style_class_name`: add a class to the caption; nothing when there is no caption. */
    method AddLabelStyleClassName(c: string)
      modifies caption
      ensures old(caption) != null ==> caption.classes == WithClass(old(caption.classes), true, c)
      ensures old(caption) != null ==> caption.text == old(caption.text)
    {
      if caption != null {
        caption.StyleClassName(true, c);
      }
    }

    /** `set_icon`: create the icon at the start of the box if there is none, then show `image` in it. */
    method SetIcon(image: IconImage)
      requires Valid()
      modifies this, icon
      ensures Valid()
      ensures icon != null && icon.image == image
      ensures old(icon) == null ==> fresh(icon) && box == [icon as object] + old(box)
      ensures old(icon) != null ==> icon == old(icon) && box == old(box)
      ensures caption == old(caption) && classes == old(classes)
    {
      if icon == null {
        var i := new Icon("application-x-executable");
        icon := i;
        box := [i as object] + box;
      }
      icon.image := image;
    }

    /** `set_icon_name`: create a named icon at the start of the box, or rename the existing one. */
    method SetIconName(name: string)
      requires Valid()
      modifies this, icon
      ensures Valid()
      ensures icon != null && icon.image == Themed(name)
      ensures old(icon) == null ==> fresh(icon) && box == [icon as object] + old(box)
      ensures old(icon) != null ==> icon == old(icon) && box == old(box)
      ensures caption == old(caption) && classes == old(classes)
    {
      if icon == null {
        var i := new Icon(name);
        icon := i;
        box := [i as object] + box;
      } else {
        icon.image := Themed(name);
      }
    }

    /** `delete_icon`: remove the icon, if there is one, and nothing else. */
    method DeleteIcon()
      requires Valid()
      modifies this
      ensures Valid()
      ensures icon == null && caption == old(caption) && classes == old(classes)
      ensures box == if old(icon) == null then old(box) else Without(old(box), old(icon))
    {
      if icon != null {
        if caption == null {
          assert box == [icon as object] && box[..0] == [];
          assert Without(box, icon as object) == [];
        } else {
          assert box == [icon as object, caption as object] && box[..1] == [icon as object];
          assert Without(box, icon as object) == [caption as object];
        }
        box := Without(box, icon as object);
        icon := null;
      }
    }

    /** `style_class_name`: switch `c` on the button and, when there is one, on its caption. */
    method StyleClassName(active: bool, c: string)
      requires Valid()
      modifies this, caption
      ensures Valid()
      ensures box == old(box) && icon == old(icon) && caption == old(caption)
      ensures classes == WithClass(old(classes), active, c)
      ensures old(caption) != null ==> caption.classes == WithClass(old(caption.classes), active, c)
      ensures old(caption) != null ==> caption.text == old(caption.text)
    {
      if caption != null {
        caption.StyleClassName(active, c);
      }
      classes := WithClass(classes, active, c);
    }
  }

}
