/**
 The last repairs of a loaded state: its layouts, the active one, and the
 main window (data/src/lib.rs). A coordinate is a finite number or none.
 */
module LoadedState {
  import opened Basics

  datatype Coordinate = Finite(value: real) | NonFinite

  datatype Window = Window(width: Coordinate, height: Coordinate, x: Coordinate, y: Coordinate)

  datatype Layout<D> = Layout(name: string, dashboard: D)

  datatype Warning = NoLayouts | ActiveMissing(name: string) | WindowInvalid

  const MAX_WINDOW_COORD: real := 20_000.0

  predicate SizeIsInvalid(w: Window) {
    w.width.NonFinite? || w.height.NonFinite? || w.width.value <= 0.0 || w.height.value <= 0.0
  }

  predicate OffScreen(c: Coordinate) { c.NonFinite? || c.value > MAX_WINDOW_COORD || c.value < -MAX_WINDOW_COORD }

  predicate HasLayout<D>(layouts: seq<Layout<D>>, name: string) { exists i: nat :: i < |layouts| && layouts[i].name == name }

  class State<D> {
    var layouts: seq<Layout<D>>
    var activeLayout: Option<string>
    var mainWindow: Option<Window>

    constructor (layouts: seq<Layout<D>>, activeLayout: Option<string>, mainWindow: Option<Window>)
      ensures this.layouts == layouts && this.activeLayout == activeLayout && this.mainWindow == mainWindow
    {
      this.layouts, this.activeLayout, this.mainWindow := layouts, activeLayout, mainWindow;
    }

    // Nothing to repair.
    predicate Sound()
      reads this
    {
      && layouts != []
      && (activeLayout.Some? ==> HasLayout(layouts, activeLayout.value))
      && (mainWindow.Some? ==>
            !SizeIsInvalid(mainWindow.value) && !OffScreen(mainWindow.value.x) && !OffScreen(mainWindow.value.y))
    }

    // A repaired state is sound; a sound state is left alone, silently, and
    // every other one is reported.
    method Sanitize(empty: D) returns (warnings: seq<Warning>)
      modifies this
      ensures Sound()
      ensures warnings == [] <==> old(Sound())
      ensures old(Sound()) ==> layouts == old(layouts) && activeLayout == old(activeLayout) && mainWindow == old(mainWindow)
      ensures layouts == if old(layouts) == [] then [Layout("Default", empty)] else old(layouts)
      ensures activeLayout == if old(layouts) == [] then Some("Default")
                              else if old(activeLayout.Some? && !HasLayout(layouts, activeLayout.value)) then Some(old(layouts)[0].name)
                              else old(activeLayout)
      ensures mainWindow == None || mainWindow == old(mainWindow)
      ensures old(mainWindow).Some? && mainWindow == None <==> WindowInvalid in warnings
    {
      warnings := [];
      if layouts == [] {
        warnings := warnings + [NoLayouts];
        layouts := layouts + [Layout("Default", empty)];
        activeLayout := Some("Default");
        assert layouts[0].name == "Default";
      }
      if activeLayout.Some? && !HasLayout(layouts, activeLayout.value) {
        warnings := warnings + [ActiveMissing(activeLayout.value)];
        activeLayout := Some(layouts[0].name);
      }
      var more := SanitizeMainWindow();
      warnings := warnings + more;
    }

    method SanitizeMainWindow() returns (warnings: seq<Warning>)
      modifies this`mainWindow
      ensures var w := old(mainWindow);
              if w.Some? && (SizeIsInvalid(w.value) || OffScreen(w.value.x) || OffScreen(w.value.y))
              then mainWindow == None && warnings == [WindowInvalid]
              else mainWindow == w && warnings == []
    {
      warnings := [];
      if mainWindow == None {
        return;
      }
      var window := mainWindow.value;
      var invalidSize := SizeIsInvalid(window);
      var invalidPosition := OffScreen(window.x) || OffScreen(window.y);
      if invalidSize || invalidPosition {
        mainWindow := None;
        warnings := [WindowInvalid];
      }
    }
  }
}
