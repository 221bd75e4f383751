# MatrixVisualizer: the interaction state, in Dafny

MatrixVisualizer is a desktop demo of 2D linear maps. A user edits the 2x2 linear part of a 3x3 matrix in a table and drags the tips of the two basis vectors and of an extra "misc" vector. The renderer draws the grid, the vectors and a set of random dots under the transform. This project models the interaction state and the handlers that change it, except what "## Left out" lists:

- **`NvgRender`** (`nvg_render.py`): the state of the `NvgTest` object. That is the matrix, `held`, `misc_vector`, the fixed anchors `x_unit`/`y_unit`, `scale` and the dot list.
  - The mouse/drag block of `render` is specified by the transition function `Frame` and implemented in place by `NvgTest.Step`.
  - `point_within_circle` is `PointWithinCircle`.
  - `generate_dots`, `clear_dots` and `reset` are methods of the class.
- **`Gui`** (`main.py`): the handlers inside `gui()` that change that object.
  - The editable table (matrix cells, input-vector cells, read-only output cells).
  - The scale dragger.
  - The Generate Dots, Clear Dots and Reset buttons.
- **`LinAlg`**: the glm values the state is made of. These are `vec2`, `vec3` and a column-major `mat3x3` (`m[i]` is column i). The module also covers matrix product, `mat3 * vec2` and `glm.scale`.
- **`Wrappers`**: `Option`, the outcome of `float(text)`.

The object invariant `NvgTest.Valid()` has two parts:
- The matrix stays a 2x2 linear map inside the 3x3. Both basis columns have z = 0 and the third column is still (0, 0, 1), because nothing the model covers writes it.
- Every dot lies in the square [-1, 1]².

Every state-changing method keeps this invariant.

Each frame's two mouse points, `mouse_local` and `mouse_normalized`, are inputs to `Step`, as are the two mouse flags. A text cell is an `Option<real>`: `None` when `float` raises `ValueError`. The scale dragger is its `(changed, value)` pair. The random draws of `generate_dots` are a parameter whose points lie in [-1, 1]².

Two points about the code that the contracts make explicit:
- **A frame with both a release and a click.** The release check only clears `held`. If the same frame also reports a click, the hit test then runs on it, because nothing is held any more (`nvg_render.py:94-109`). So `Frame` promises `Idle` after a release only when the frame has no click.
- **Where a released basis column ends up.** After a press, drag and release, column 0 holds the normalised mouse point of the last frame *before* the release. The release frame writes no vector (`ClickDragReleaseX`).

## Model

| member | source | states |
|---|---|---|
| NvgRender.NvgTest.constructor | nvg_render.py:13-22 | A new object has the identity matrix, `scale` 100, no dots, nothing held, `x_unit` (1,0), `y_unit` (0,1) and `misc_vector` (1,1). It satisfies the invariant. `x_unit`, `y_unit` and `scale` are constants, so nothing writes them afterwards. |
| NvgRender.PointWithinCircle | nvg_render.py:68-70 | `point_within_circle`: for a negative radius nothing is within, and the centre itself is within exactly when the radius is non-negative. `WithinCircleIffLength` relates it to `glm.length`. |
| NvgRender.WithinCircleIffLength | nvg_render.py:68-70 | For any length `len` of `point - center`, `PointWithinCircle` holds exactly when `len <= radius`. This holds for every radius, negative ones included. The boundary counts as inside. |
| NvgRender.HitTest | nvg_render.py:103-109 | The result is the handle of the first of `x_unit`, `y_unit`, current misc vector whose 0.1-circle holds the mouse. It is `Idle` exactly when none does. Overlaps are settled by order. |
| NvgRender.Drag | nvg_render.py:97-102 | While a handle is held, a frame sets matrix column 0 (x), column 1 (y) or the misc vector (m) to the normalised mouse point. The other columns, the other vector and `held` are unchanged, and the linear-map shape is kept. |
| NvgRender.Frame | nvg_render.py:94-109 | A release frame writes no matrix column and no misc vector. It leaves nothing held unless the same frame clicks. A held handle follows the mouse and ignores clicks. With nothing held, only a click can change the state, and only `held`, to the hit test's result. |
| NvgRender.NvgTest.Step | nvg_render.py:94-109 | The in-place update of `held`, `matrix` and `misc_vector` yields exactly `Frame` of the old state. It writes no other field and keeps the invariant. |
| NvgRender.RunKeepsLinearMap | nvg_render.py:97-100 | No sequence of frames gives the matrix a non-zero z in a basis column or touches its third column. |
| NvgRender.HeldFollowsLastFrame | nvg_render.py:94-102 | While a handle stays held over any non-empty run of frames without a release, the result is one drag to the last frame's normalised mouse point. Earlier positions are overwritten. |
| NvgRender.ClickDragReleaseX | nvg_render.py:94-109 | The sequence is: click inside the x handle, then one or more drag frames, then a release without a click. It ends with nothing held and column 0 set to the last drag frame's point. The other columns and the misc vector are unchanged. |
| NvgRender.NvgTest.GenerateDots | nvg_render.py:141-144 | Appends exactly `max(amount, 0)` draws, with the old dots as a prefix. Every dot stays in [-1, 1]². |
| NvgRender.NvgTest.ClearDots | nvg_render.py:146-147 | Leaves no dots. |
| NvgRender.NvgTest.Reset | nvg_render.py:149-152 | Changes nothing. |
| Gui.EditMatrixCell | main.py:81-87 | A parsed value replaces entry `matrix[i][j]` (column i, component j). A failed parse keeps it. No other entry and no other column changes. The linear-map shape is kept. |
| Gui.EditInputCell | main.py:90-96 | A parsed value replaces `misc_vector[i]`. A failed parse keeps it. The other component is untouched. |
| Gui.MatrixTable | main.py:77-100 | Only the four entries with i, j < 2 can change, each by parse-or-ignore. No z component and nothing in column 2 changes. Both misc components follow the same rule. Output cell 0 shows `(matrix * misc_vector).x` after row 0's edits and before row 1's. Output cell 1 shows `.y` after all edits. The output cells mutate nothing. |
| Gui.ScaleDrag | main.py:111-115 | On a reported change the matrix becomes `scale(s, s) * matrix`, which sends every point to s times its old image. With no change the matrix is unchanged. The invariant is kept. |
| Gui.GenerateDotsButton | main.py:128-130 | Afterwards the dots are exactly the 20 new draws, whatever was there before. |
| Gui.ClearDotsButton | main.py:132-133 | Leaves no dots. |
| Gui.ResetButton | main.py:138-139 | The matrix becomes the identity, whatever it was, and maps every point to itself. |
| LinAlg.WithEntry | main.py:84 | The in-place write `m[i][j] = a` sets that entry and keeps the other eight. |
| LinAlg.WithComp2 | main.py:93 | The in-place write `misc_vector[i] = a` sets that component and keeps the other one. |
| LinAlg.WithColumn | nvg_render.py:98-100 | The in-place write `m[i] = c` sets that column and keeps the other two. |
| LinAlg.Identity | nvg_render.py:15 | `mat3x3()` has 1 on the diagonal and 0 elsewhere. |
| LinAlg.Scaling | main.py:114-115 | `glm.scale(vec2(s))` has s in the first two diagonal entries, 1 in the third and 0 elsewhere. |
| LinAlg.Mul | main.py:114-115 | glm's `mat3 * mat3`, a plain definition column by column. Its contract says that a product of linear maps is a linear map and that the identity on the left changes nothing. `TransformOfProduct` and `ScalingsCompose` specify it further. |
| LinAlg.Transform | main.py:100 | glm's `mat3 * vec2`, a plain definition. Its contract says that a linear map fixes the origin and the identity fixes every point. `TransformOfProduct` and `ScaledTransform` specify it further. |
| LinAlg.TransformOfProduct | main.py:114-115 | Transforming a point by `a * b` is transforming it by b, then by a, when b is a linear map. Left multiplication applies the new map after the old one. |
| LinAlg.ScaledTransform | main.py:114-115 | After `scale(s, s) * m`, every point lands at s times its image under m. |
| LinAlg.ScalingsCompose | main.py:111-115 | Scaling by b and then by a is the same as one scaling by a·b. |
| LinAlg.ScalingKeepsLinearMap | main.py:114-115 | A scaling keeps the matrix a linear map. |
| LinAlg.IdentityIsNeutral | main.py:139 | The identity is a linear map and leaves every point where it is. |

## Left out

- Drawing: `draw_line`, `draw_circle`, `draw_rect_centered`, `draw_grid`, `transform` and the drawing half of `render`. These are calls into the vector-graphics library.
- The GUI and window plumbing: widgets and table layout, runner callbacks, the framebuffer, `AppState`, `main()` and the background colour editor.
- How `mouse_local` and `mouse_normalized` are computed from the screen position (`nvg_render.py:79-92`). That uses the normaliser matrix and `glm.inverse` on floats, so both points are frame inputs. The `normalizer` and `world_transform` matrices exist only for that and for drawing.
- Rotation by dragger (`main.py:105-109`): it is trigonometric.
- Invert (`main.py:124-126`): it calls `glm.inverse`, a foreign call on floats, and has no singularity guard.
- The displayed determinant (`main.py:119-120`) and `get_stroke_width`: both are floating-point and cosmetic.
- `random.uniform`: the draws are a parameter.
- The `drag_float` widget's own behaviour, such as clamping to [0, 2]: the model takes the value it reports.
- glm's float32 storage and the `str`/`float` text round trip of the cells: arithmetic is on exact reals, and a cell's text arrives already parsed.
- The fields `self.context` and `self.mouse`: neither takes part in the logic.
- The import of `NvgData` at `main.py:3`, while `nvg_render.py` defines `NvgTest`: both names are taken to denote the same class.
- `mat3 * vec2` (`Transform`): the vector is taken as the point (x, y, 1) and the first two components of the product are kept. Under the invariant the third component is 1, so no perspective division arises.
- The order of the handlers within one call of `gui()`: each handler is a separate method.
