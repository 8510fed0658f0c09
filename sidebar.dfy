/**
 * The sidebar's open flag (src/hooks/useSidebar.js): the user toggles it, and
 * every resize, as well as the mount, sets it from the window width.
 */
module Sidebar {

  /** The narrowest window width at which the sidebar is expanded. */
  const DesktopWidth: int := 1024

  class SidebarHook {
    var sidebarOpen: bool

    /** The state before the mount effect runs. */
    constructor ()
      ensures sidebarOpen
    {
      sidebarOpen := true;
    }

    /** `toggleSidebar()`. */
    method ToggleSidebar()
      modifies this
      ensures sidebarOpen == !old(sidebarOpen)
    {
      sidebarOpen := !sidebarOpen;
    }

    /** `handleResize()` with `window.innerWidth` as `innerWidth`. */
    method HandleResize(innerWidth: int)
      modifies this
      ensures sidebarOpen <==> innerWidth >= DesktopWidth
    {
      if innerWidth >= DesktopWidth {
        sidebarOpen := true;
      } else {
        sidebarOpen := false;
      }
    }

    /** The mount effect: the width rule is applied once before any resize. */
    method Mount(innerWidth: int)
      modifies this
      ensures sidebarOpen <==> innerWidth >= DesktopWidth
    {
      HandleResize(innerWidth);
    }
  }
}
